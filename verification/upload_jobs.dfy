/**
 The registry of resumable uploads (service/upload_jobs.go) and the receipt of one chunk
 (service/siteservice_resumablereceiver.go): what each locked section does to a job, to the
 registry and to the chunk files. UploadProtocol puts the sections together.
 */
module UploadJobs {
  import opened ChunkStore

  /** The registry key: the user and the identifier the client chose. */
  datatype Key = Key(uid: int, file: string)

  datatype Params = Params(size: int, chunks: int, chunkSize: int, filename: string, path: string)

  datatype State = Receiving | Processing | Failed | Succeeded

  datatype Job = Job(
    key: Key, sid: Option<int>, params: Params,
    tracking: Option<int>, state: State, retryable: bool, attempt: int, touched: int, refs: int)

  const RETENTION: int := 24 * 60 * 60 * 1_000_000_000
  const MAX_JOBS: nat := 1000

  predicate Fits(key: Key, p: Params) {
    && (forall c | c in key.file :: c !in ['/', '\\', '\0'])
    && 0 < |key.file| <= 4096 && p.chunks >= 1 && p.size >= 1
  }

  // ---------------------------------------------------------------- one chunk

  datatype Reply =
    | Mismatch | BadRetry | UnsafeRetry | StoreError | Accepted
    | Tracking(name: Option<int>) | Started(ticket: int)

  datatype Receipt = Receipt(job: Job, files: Files, reply: Reply)

  /** A chunk as posted: the parameters repeated with it, and what the clock and the disk do meanwhile. */
  datatype Post = Post(sid: Option<int>, params: Params, number: int, chunk: Bytes, retry: int,
                       now: int, fault: Fault, readable: bool, ticket: int)

  predicate WellFormed(m: Post) {
    1 <= m.number <= m.params.chunks && m.chunk != []
  }

  predicate Finished(files: Files, j: Job) {
    && Complete(files, j.key.uid, j.key.file, 1, j.params.chunks)
    && |Content(files, j.key.uid, j.key.file, 1, j.params.chunks)| == j.params.size
  }

  /** The section of ReceiveSubmissionChunk under the job's mutex, as a function of job and files. */
  function Received(j: Job, files: Files, m: Post): Receipt {
    if j.sid != m.sid || j.params != m.params then Receipt(j, files, Mismatch)
    else
      var seen := j.(touched := m.now);
      var retries := j.state == Failed && m.retry > j.attempt;
      if retries && m.retry != j.attempt + 1 then Receipt(seen, files, BadRetry)
      else if retries && !j.retryable then Receipt(seen, files, UnsafeRetry)
      else if j.state != Receiving && !retries then Receipt(seen, files, Tracking(j.tracking))
      else
        var open := if retries then seen.(attempt := m.retry, state := Receiving) else seen;
        var after := Put(files, j.key.uid, j.key.file, m.number, m.chunk, m.fault);
        if !m.fault.Clean? || !m.readable then Receipt(open, after, StoreError)
        else if !Finished(after, j) then Receipt(open, after, Accepted)
        else
          var ticket := if j.tracking.Some? then j.tracking.value else m.ticket;
          Receipt(open.(tracking := Some(ticket), state := Processing, retryable := true), after, Started(ticket))
  }

  /**
   A worker is started only for a complete upload of the announced size, and only when no earlier
   attempt can have committed: the job was receiving, or it had failed in a way marked retryable
   and this is the very next attempt.
   */
  lemma StartedMeansComplete(j: Job, files: Files, m: Post)
    ensures var r := Received(j, files, m);
            && (r.reply.Started? <==> r.job.state == Processing && j.state != Processing)
            && (r.reply.Started? ==>
                  && Finished(r.files, j) && r.job.retryable && r.job.tracking == Some(r.reply.ticket)
                  && (j.state == Receiving ||
                      (j.state == Failed && j.retryable && r.job.attempt == j.attempt + 1 == m.retry)))
            && (r.job.state != j.state ==> j.state == Receiving || (j.state == Failed && j.retryable))
            && (r.files != files ==> r.job.state == Receiving || r.reply.Started?)
            && r.job.key == j.key && r.job.sid == j.sid && r.job.params == j.params && r.job.refs == j.refs
  {
  }

  /** The chunk is posted for this job: the parameters repeated with it are the job's. */
  predicate ForThis(j: Job, m: Post) {
    && m.sid == j.sid && m.params.size == j.params.size && m.params.chunks == j.params.chunks
    && m.params.chunkSize == j.params.chunkSize && m.params.filename == j.params.filename
    && m.params.path == j.params.path
  }

  /** The job is still receiving, or has failed in a way that may be retried and this is the very next attempt. */
  predicate Receives(j: Job, m: Post) {
    j.state == Receiving || (j.state == Failed && j.retryable && m.retry == j.attempt + 1)
  }

  /**
   When each reply is due, told from the job and the post alone. A chunk that is due and stored cleanly
   and readably is accepted, or starts the worker exactly if the upload is complete with it; a ticket
   given before is kept.
   */
  lemma EachReplyExactly(j: Job, files: Files, m: Post)
    ensures var r := Received(j, files, m);
            var stored := ForThis(j, m) && Receives(j, m) && m.fault == Clean && m.readable;
            && (r.reply == Mismatch <==> !ForThis(j, m))
            && (r.reply == BadRetry <==> ForThis(j, m) && j.state == Failed && m.retry > j.attempt + 1)
            && (r.reply == UnsafeRetry <==>
                  ForThis(j, m) && j.state == Failed && m.retry == j.attempt + 1 && !j.retryable)
            && (r.reply.Tracking? <==>
                  && ForThis(j, m)
                  && (j.state == Processing || j.state == Succeeded || (j.state == Failed && m.retry <= j.attempt)))
            && (r.reply.Tracking? ==> r.reply.name == j.tracking)
            && (r.reply == StoreError <==> ForThis(j, m) && Receives(j, m) && !(m.fault == Clean && m.readable))
            && (r.reply == Accepted <==> stored && !Finished(r.files, j))
            && (r.reply.Started? <==> stored && Finished(r.files, j))
            && (r.reply.Started? ==> r.reply.ticket == if j.tracking.Some? then j.tracking.value else m.ticket)
  {
    hide Finished, Put;
  }

  /** What the reply leaves: refusals change no file; a chunk that is stored is there, all others are as before. */
  lemma EachReplyLeaves(j: Job, files: Files, m: Post)
    ensures var r := Received(j, files, m);
            && (r.reply == Mismatch ==> r.job == j)
            && (r.reply != Mismatch ==> r.job.touched == m.now)
            && (r.reply == Mismatch || r.reply == BadRetry || r.reply == UnsafeRetry || r.reply.Tracking? ==>
                  r.files == files && r.job == j.(touched := r.job.touched))
            && (r.reply == Accepted || r.reply == StoreError ==>
                  && r.job.state == Receiving && r.job.tracking == j.tracking && r.job.retryable == j.retryable
                  && r.job.attempt == if j.state == Failed then j.attempt + 1 else j.attempt)
            && (r.reply.Started? ==>
                  && r.job.state == Processing && r.job.retryable && r.job.tracking == Some(r.reply.ticket)
                  && r.job.attempt == if j.state == Failed then j.attempt + 1 else j.attempt)
            && r.job.key == j.key && r.job.sid == j.sid && r.job.params == j.params && r.job.refs == j.refs
            && (r.reply == Accepted || r.reply.Started? ==>
                  Chunk(j.key.uid, j.key.file, m.number) in r.files
                  && r.files[Chunk(j.key.uid, j.key.file, m.number)] == m.chunk)
            && (forall name: Name | !name.part && name != Chunk(j.key.uid, j.key.file, m.number) ::
                  && (name in r.files <==> name in files)
                  && (name in files && name in r.files ==> r.files[name] == files[name]))
  {
    hide Finished;
  }

  predicate OwnedBy(name: Name, j: Job) {
    Owned(name, j.key.uid, j.key.file, j.params.chunks)
  }

  /** The files without those of this upload, except for the ones that could not be removed. */
  function Cleaned(files: Files, j: Job, stuck: set<Name>): Files {
    map name | name in files && (OwnedBy(name, j) ==> name in stuck) :: files[name]
  }

  /**
   A successful upload leaves nothing behind: unless something could not be removed none of its chunks,
   complete or partial, is there any more, so whoever posts it again starts from nothing; what any other
   upload has stored is untouched.
   */
  lemma CleanupForgets(j: Job, files: Files, stuck: set<Name>, name: Name, uid: int, file: string, count: int)
    ensures var files' := Cleaned(files, j, stuck);
            && (name in files && name !in files' <==>
                  && name in files && name !in stuck && name.uid == j.key.uid && name.file == j.key.file
                  && 0 < name.number <= j.params.chunks)
            && (name in files' ==> name in files && files'[name] == files[name])
            && (stuck == {} ==> Content(files', j.key.uid, j.key.file, 1, j.params.chunks) == [])
            && (stuck == {} && j.params.chunks >= 1 ==> !Complete(files', j.key.uid, j.key.file, 1, j.params.chunks))
            && (Key(uid, file) != j.key ==> Content(files', uid, file, 1, count) == Content(files, uid, file, 1, count))
  {
    var files' := Cleaned(files, j, stuck);
    assert stuck == {} && j.params.chunks >= 1 ==> !Present(files', j.key.uid, j.key.file, 1);
    if Key(uid, file) != j.key { ContentDependsOnOwn(files, files', uid, file, 1, count); }
  }

  class UploadJob {
    const key: Key
    const sid: Option<int>
    const params: Params
    var tracking: Option<int>
    var state: State
    var retryable: bool
    var retryAttempt: int
    var touched: int
    var refs: int

    constructor (key: Key, sid: Option<int>, params: Params, now: int)
      ensures AsJob() == Job(key, sid, params, None, Receiving, false, 0, now, 0)
    {
      this.key, this.sid, this.params := key, sid, params;
      tracking, state, retryable, retryAttempt, touched, refs := None, Receiving, false, 0, now, 0;
    }

    function AsJob(): Job
      reads this
    {
      Job(key, sid, params, tracking, state, retryable, retryAttempt, touched, refs)
    }

    predicate Matches(sid: Option<int>, p: Params) {
      this.sid == sid && params.size == p.size && params.chunks == p.chunks && params.chunkSize == p.chunkSize
      && params.filename == p.filename && params.path == p.path
    }

    /** ReceiveSubmissionChunk after the job has been pinned. */
    method Receive(dir: Directory, m: Post) returns (reply: Reply)
      requires key.uid != 0 && key.file != "" && WellFormed(m)
      modifies this, dir
      ensures Received(old(AsJob()), old(dir.files), m) == Receipt(AsJob(), dir.files, reply)
    {
      hide Content, Complete, Put;
      if !Matches(m.sid, m.params) { return Mismatch; }
      touched := m.now;
      if state == Failed && m.retry > retryAttempt {
        if m.retry != retryAttempt + 1 { return BadRetry; }
        if !retryable { return UnsafeRetry; }
        retryAttempt := m.retry;
        state := Receiving;
      }
      if state != Receiving { return Tracking(tracking); }
      var ok := dir.PutChunk(key.uid, key.file, m.number, m.chunk, m.fault);
      if !ok { return StoreError; }
      if !m.readable { return StoreError; }
      var complete := dir.IsUploadFinished(key.uid, key.file, params.chunks, params.size);
      if !complete { return Accepted; }
      if tracking.None? {
        tracking := Some(m.ticket);
      }
      state := Processing;
      retryable := true;
      return Started(tracking.value);
    }

    /** Called by the worker before it commits: from here on a retry might commit twice. */
    method BeforeCommit()
      modifies `retryable
      ensures AsJob() == old(AsJob()).(retryable := false)
    {
      retryable := false;
    }

    /** The end of runUploadJob; after a panic the job has been made unretryable first. */
    method Finish(dir: Directory, ok: bool, panicked: bool, now: int, stuck: set<Name>)
      requires key.uid != 0 && key.file != "" && !(ok && panicked)
      modifies this, dir
      ensures AsJob() == old(AsJob()).(state := if ok then Succeeded else Failed, touched := now,
                                       retryable := old(AsJob()).retryable && !panicked)
      ensures dir.files == if ok then Cleaned(old(dir.files), old(AsJob()), stuck) else old(dir.files)
    {
      if panicked {
        retryable := false;
      }
      if ok {
        state := Succeeded;
        var _ := dir.DeleteFile(key.uid, key.file, params.chunks, stuck);
      } else {
        state := Failed;
      }
      touched := now;
    }
  }

  // ---------------------------------------------------------------- the registry

  /** Unpinned, not processing, and untouched for longer than the retention period. */
  predicate Expired(j: Job, now: int) {
    j.refs == 0 && j.state != Processing && now - j.touched > RETENTION
  }

  /** The sweep's subject: expired jobs whose mutex is free. */
  predicate Doomed(jobs: map<Key, Job>, key: Key, now: int, busy: set<Key>) {
    key in jobs && key !in busy && Expired(jobs[key], now)
  }

  function NameKey(name: Name): Key {
    Key(name.uid, name.file)
  }

  predicate Removable(jobs: map<Key, Job>, name: Name, now: int, busy: set<Key>, stuck: set<Name>) {
    Doomed(jobs, NameKey(name), now, busy) && OwnedBy(name, jobs[NameKey(name)]) && name !in stuck
  }

  /** The files left after the sweep: those of doomed jobs are gone unless they could not be removed. */
  function SweptFiles(jobs: map<Key, Job>, files: Files, now: int, busy: set<Key>, stuck: set<Name>): Files {
    map name | name in files && !Removable(jobs, name, now, busy, stuck) :: files[name]
  }

  /** A doomed job is forgotten only if none of its files is left. */
  function SweptKeys(jobs: map<Key, Job>, files: Files, now: int, busy: set<Key>, stuck: set<Name>): set<Key> {
    set key | key in jobs && Doomed(jobs, key, now, busy)
              && (forall name | name in files && OwnedBy(name, jobs[key]) :: name !in stuck)
  }

  datatype Acquired = BadParameters | Full | Pinned

  /**
   acquireUploadJob on the registry left by the sweep: pin the job of this key, or register a new one if
   there is room.
   */
  function Pin(kept: map<Key, Job>, key: Key, sid: Option<int>, p: Params, now: int): (map<Key, Job>, Acquired) {
    if key in kept then (kept[key := kept[key].(refs := kept[key].refs + 1)], Pinned)
    else if |kept| >= MAX_JOBS then (kept, Full)
    else (kept[key := Job(key, sid, p, None, Receiving, false, 0, now, 1)], Pinned)
  }

  /** What the client is told about one posted chunk. */
  datatype Response = NotAuthenticated | InvalidChunk | Rejected(why: Acquired) | Replied(reply: Reply)

  /** The registry and the files after a chunk of a pinned job, with the pin already given back. */
  function Handled(jobs: map<Key, Job>, key: Key, files: Files, m: Post): Receipt
    requires key in jobs
  {
    var r := Received(jobs[key], files, m);
    r.(job := r.job.(refs := r.job.refs - 1))
  }

  /** Whatever becomes of the chunk, its pin is given back, and the job is otherwise as its section left it. */
  lemma PinIsGivenBack(kept: map<Key, Job>, key: Key, files: Files, m: Post)
    requires Pin(kept, key, m.sid, m.params, m.now).1 == Pinned
    ensures var jobs := Pin(kept, key, m.sid, m.params, m.now).0;
            && key in jobs
            && (var h, r := Handled(jobs, key, files, m), Received(jobs[key], files, m);
                && h.job.refs == (if key in kept then kept[key].refs else 0)
                && h == Receipt(r.job.(refs := h.job.refs), r.files, r.reply))
  {
    hide Finished, Put;
  }

  datatype Answer = Missing | Stored | AlreadyComplete

  ghost predicate ChunkAnswered(before: map<Key, Job>, files: Files, key: Key, m: Post, busy: set<Key>,
                                stuck: set<Name>, after: map<Key, Job>, files': Files, answer: Response)
  {
    var swept := SweptFiles(before, files, m.now, busy, stuck);
    var (jobs, outcome) := Pin(before - SweptKeys(before, files, m.now, busy, stuck), key, m.sid, m.params, m.now);
    if outcome == Pinned then
      key in jobs
      && (var h := Handled(jobs, key, swept, m);
          after == jobs[key := h.job] && files' == h.files && answer == Replied(h.reply))
    else after == jobs && files' == swept && answer == Rejected(outcome)
  }

  lemma PinOutcomes(kept: map<Key, Job>, key: Key, m: Post)
    ensures var (jobs, outcome) := Pin(kept, key, m.sid, m.params, m.now);
            (outcome == Pinned ==> key in jobs) && outcome != BadParameters
  {
  }

  /** Registering: there is room for a thousand jobs, and all but the job of this key stay as they are. */
  lemma PinExactly(kept: map<Key, Job>, key: Key, sid: Option<int>, p: Params, now: int)
    ensures var (jobs, outcome) := Pin(kept, key, sid, p, now);
            && (outcome == Full <==> key !in kept && |kept| >= 1000) && (outcome == Full ==> jobs == kept)
            && (outcome != Full ==>
                  && outcome == Pinned && key in jobs && jobs.Keys == kept.Keys + {key}
                  && forall k | k in kept && k != key :: jobs[k] == kept[k])
  {
  }

  /** A job that exists is only pinned once more; a new one starts from nothing. */
  lemma PinnedJobIs(kept: map<Key, Job>, key: Key, sid: Option<int>, p: Params, now: int)
    requires Pin(kept, key, sid, p, now).1 == Pinned
    ensures key in Pin(kept, key, sid, p, now).0
    ensures var j := Pin(kept, key, sid, p, now).0[key];
            && (key in kept ==> j == kept[key].(refs := kept[key].refs + 1))
            && (key !in kept ==>
                  && j.key == key && j.sid == sid && j.params == p && j.refs == 1 && j.state == Receiving
                  && j.tracking == None && j.attempt == 0 && !j.retryable && j.touched == now)
  {
  }

  /** Nobody holds or processes the job, its mutex is free, and nobody has touched it for more than a day. */
  predicate Abandoned(jobs: map<Key, Job>, key: Key, now: int, busy: set<Key>) {
    && key in jobs && key !in busy && jobs[key].refs == 0 && jobs[key].state != Processing
    && now > jobs[key].touched + 86_400_000_000_000
  }

  /** The sweep removes the removable files of the abandoned jobs, and forgets those of which no file is left. */
  lemma SweepExactly(jobs: map<Key, Job>, files: Files, now: int, busy: set<Key>, stuck: set<Name>, key: Key,
                     name: Name)
    requires key in jobs ==> jobs[key].key == key
    ensures var files' := SweptFiles(jobs, files, now, busy, stuck);
            && (name in files' ==> name in files && files'[name] == files[name])
            && (name in files && name !in files' <==>
                  && name in files && Abandoned(jobs, Key(name.uid, name.file), now, busy) && name !in stuck
                  && OwnedBy(name, jobs[Key(name.uid, name.file)]))
            && (key in SweptKeys(jobs, files, now, busy, stuck) <==>
                  Abandoned(jobs, key, now, busy) && forall n | n in files' :: !OwnedBy(n, jobs[key]))
  {
    var files' := SweptFiles(jobs, files, now, busy, stuck);
    if key in jobs {
      forall n | n in files && OwnedBy(n, jobs[key]) ensures NameKey(n) == key { }
      forall n | n in files && OwnedBy(n, jobs[key])
        ensures n in files' <==> !(Doomed(jobs, key, now, busy) && n !in stuck)
      {
      }
    }
  }

  class Registry {
    var jobs: map<Key, UploadJob>

    constructor ()
      ensures jobs == map[]
    {
      jobs := map[];
    }

    function AsJobs(): map<Key, Job>
      reads this, jobs.Values
    {
      map key | key in jobs :: jobs[key].AsJob()
    }

    ghost predicate Valid()
      reads this, jobs.Values
    {
      && (forall key | key in jobs :: jobs[key].key == key && key.uid != 0 && key.file != "")
      && (forall k, l | k in jobs && l in jobs && k != l :: jobs[k] != jobs[l])
    }

    /** The sweep over the registry at the start of acquireUploadJob. */
    method Sweep(dir: Directory, now: int, busy: set<Key>, stuck: set<Name>)
      requires Valid()
      modifies this, dir
      ensures Valid() && jobs == old(jobs) - SweptKeys(old(AsJobs()), old(dir.files), now, busy, stuck)
      ensures dir.files == SweptFiles(old(AsJobs()), old(dir.files), now, busy, stuck)
    {
      hide PartlySwept, SweptFiles, SweptKeys, Removable, Owned;
      ghost var all, before := AsJobs(), dir.files;
      ghost var gone: set<Key> := {};
      var todo := jobs.Keys;
      NothingSwept(all, before, now, busy, stuck);
      assert all.Keys == jobs.Keys;
      while todo != {}
        invariant todo <= old(jobs).Keys && gone <= old(jobs).Keys - todo
        invariant jobs == old(jobs) - gone
        invariant forall key | key in old(jobs) :: old(jobs)[key].AsJob() == all[key]
        invariant PartlySwept(all, before, dir.files, gone, todo, now, busy, stuck)
        decreases todo
      {
        var key :| key in todo;
        var j := jobs[key];
        assert j.AsJob() == all[key] && all[key].key == key;
        if j.refs != 0 || key in busy || j.state == Processing || now - j.touched <= RETENTION {
          OneKept(all, before, dir.files, gone, todo, key, now, busy, stuck);
          todo := todo - {key};
          continue;
        }
        ghost var mid := dir.files;
        assert Doomed(all, key, now, busy);
        var ok := dir.DeleteFile(j.key.uid, j.key.file, j.params.chunks, stuck);
        OneDeleted(all, before, mid, dir.files, gone, todo, key, ok, now, busy, stuck);
        todo := todo - {key};
        if !ok { continue; }
        jobs := jobs - {key};
        gone := gone + {key};
      }
      AllSwept(all, before, dir.files, gone, now, busy, stuck);
    }

    method Acquire(dir: Directory, key: Key, sid: Option<int>, p: Params, now: int, busy: set<Key>, stuck: set<Name>)
      returns (outcome: Acquired)
      requires Valid() && key.uid != 0
      modifies this, dir, jobs.Values
      ensures Valid() && fresh(jobs.Values - old(jobs.Values))
      ensures !Fits(key, p) ==> outcome == BadParameters && AsJobs() == old(AsJobs()) && dir.files == old(dir.files)
      ensures Fits(key, p) ==>
                && dir.files == SweptFiles(old(AsJobs()), old(dir.files), now, busy, stuck)
                && (AsJobs(), outcome)
                     == Pin(old(AsJobs()) - SweptKeys(old(AsJobs()), old(dir.files), now, busy, stuck), key, sid, p,
                            now)
    {
      hide SweptFiles, SweptKeys, Pin;
      if !Fits(key, p) { return BadParameters; }
      ghost var all := AsJobs();
      ghost var gone := SweptKeys(all, dir.files, now, busy, stuck);
      Sweep(dir, now, busy, stuck);
      assert AsJobs() == all - gone;
      outcome := PinJob(key, sid, p, now);
    }

    lemma AsJobsKeys()
      ensures |AsJobs()| == |jobs| && AsJobs().Keys == jobs.Keys
    {
      SameCount(jobs, AsJobs());
    }

    method PinJob(key: Key, sid: Option<int>, p: Params, now: int) returns (outcome: Acquired)
      requires Valid() && Fits(key, p) && key.uid != 0
      modifies this, jobs.Values
      ensures Valid() && fresh(jobs.Values - old(jobs.Values))
      ensures (AsJobs(), outcome) == Pin(old(AsJobs()), key, sid, p, now)
    {
      hide Valid, AsJobs, Fits;
      AsJobsKeys();
      FitsNamesFile(key, p);
      ghost var kept, empty := AsJobs(), Job(key, sid, p, None, Receiving, false, 0, now, 0);
      assert kept[key := empty][key := empty.(refs := 1)] == kept[key := empty.(refs := 1)];
      if key !in jobs {
        if |jobs| >= MAX_JOBS { return Full; }
        Register(key, sid, p, now);
      }
      Retain(key);
      return Pinned;
    }

    method Register(key: Key, sid: Option<int>, p: Params, now: int)
      requires Valid() && key !in jobs && key.uid != 0 && key.file != ""
      modifies this
      ensures Valid() && key in jobs && fresh(jobs[key]) && jobs.Values <= old(jobs.Values) + {jobs[key]}
      ensures AsJobs() == old(AsJobs())[key := Job(key, sid, p, None, Receiving, false, 0, now, 0)]
    {
      var j := new UploadJob(key, sid, p, now);
      jobs := jobs[key := j];
    }

    method Retain(key: Key)
      requires Valid() && key in jobs
      modifies jobs[key]
      ensures Valid() && AsJobs() == old(AsJobs())[key := old(AsJobs())[key].(refs := old(AsJobs())[key].refs + 1)]
    {
      jobs[key].refs := jobs[key].refs + 1;
      assert forall k | k in jobs && k != key :: jobs[k] != jobs[key];
    }

    method Release(key: Key)
      requires Valid() && key in jobs
      modifies jobs[key]
      ensures Valid() && AsJobs() == old(AsJobs())[key := old(AsJobs())[key].(refs := old(AsJobs())[key].refs - 1)]
    {
      jobs[key].refs := jobs[key].refs - 1;
      assert forall k | k in jobs && k != key :: jobs[k] != jobs[key];
    }

    method ReceiveOn(dir: Directory, key: Key, m: Post) returns (reply: Reply)
      requires Valid() && key in jobs && WellFormed(m)
      modifies jobs[key], dir
      ensures Valid()
      ensures var r := Received(old(AsJobs())[key], old(dir.files), m);
              AsJobs() == old(AsJobs())[key := r.job] && dir.files == r.files && reply == r.reply
    {
      hide Received;
      reply := jobs[key].Receive(dir, m);
      assert forall k | k in jobs && k != key :: jobs[k] != jobs[key];
    }

    /** The job's section and, at the end, the release of the pin. */
    method ReceivePinned(dir: Directory, key: Key, m: Post) returns (reply: Reply)
      requires Valid() && key in jobs && WellFormed(m)
      modifies jobs[key], dir
      ensures Valid()
      ensures var h := Handled(old(AsJobs()), key, old(dir.files), m);
              AsJobs() == old(AsJobs())[key := h.job] && dir.files == h.files && reply == h.reply
    {
      hide Received, AsJobs, Valid;
      AsJobsKeys();
      ghost var pinned, r := AsJobs(), Received(AsJobs()[key], dir.files, m);
      reply := ReceiveOn(dir, key, m);
      Release(key);
      assert pinned[key := r.job][key := r.job.(refs := r.job.refs - 1)]
          == pinned[key := r.job.(refs := r.job.refs - 1)];
    }

    /** ReceiveSubmissionChunk from start to end: checks, acquisition, the section under the job's mutex, release. */
    method ReceiveSubmissionChunk(dir: Directory, key: Key, m: Post, busy: set<Key>,
                                  stuck: set<Name>) returns (answer: Response)
      requires Valid()
      modifies this, dir, jobs.Values
      ensures Valid() && fresh(jobs.Values - old(jobs.Values))
      ensures answer == NotAuthenticated <==> key.uid == 0
      ensures answer == InvalidChunk <==>
                key.uid != 0 && (m.number < 1 || m.number > m.params.chunks || m.chunk == [])
      ensures answer == Rejected(BadParameters) <==>
                && key.uid != 0 && WellFormed(m)
                && (key.file == "" || |key.file| > 4096 || m.params.size < 1
                    || exists i :: 0 <= i < |key.file| && key.file[i] in "/\\\0")
      ensures answer in {NotAuthenticated, InvalidChunk, Rejected(BadParameters)} ==>
                AsJobs() == old(AsJobs()) && dir.files == old(dir.files)
      ensures key.uid != 0 && WellFormed(m) && Fits(key, m.params) ==>
                ChunkAnswered(old(AsJobs()), old(dir.files), key, m, busy, stuck, AsJobs(), dir.files, answer)
    {
      hide Handled, SweptKeys, SweptFiles, Pin, Fits, Valid, AsJobs;
      if key.uid == 0 { return NotAuthenticated; }
      if m.number < 1 || m.number > m.params.chunks || |m.chunk| == 0 { return InvalidChunk; }
      ghost var kept := AsJobs() - SweptKeys(AsJobs(), dir.files, m.now, busy, stuck);
      PinOutcomes(kept, key, m);
      FitsExactly(key, m.params);
      var outcome := Acquire(dir, key, m.sid, m.params, m.now, busy, stuck);
      if outcome != Pinned { return Rejected(outcome); }
      AsJobsKeys();
      var reply := ReceivePinned(dir, key, m);
      return Replied(reply);
    }

    /** IsChunkReceived, pinned from start to end; the question is put with the caller's own parameters. */
    method IsChunkReceived(dir: Directory, key: Key, p: Params, number: int, size: int) returns (answer: Answer)
      requires Valid() && key.uid != 0 && key.file != "" && number != 0 && size != 0
      modifies if key in jobs then {jobs[key]} else {}
      ensures Valid() && AsJobs() == old(AsJobs())
      ensures answer == Stored <==>
                && key in jobs && AsJobs()[key].state == Receiving
                && !(Complete(dir.files, key.uid, key.file, 1, p.chunks)
                     && |Content(dir.files, key.uid, key.file, 1, p.chunks)| == p.size)
                && Present(dir.files, key.uid, key.file, number)
                && |dir.files[Chunk(key.uid, key.file, number)]| == size
      ensures answer == AlreadyComplete <==>
                && key in jobs && AsJobs()[key].state == Receiving
                && Complete(dir.files, key.uid, key.file, 1, p.chunks)
                && |Content(dir.files, key.uid, key.file, 1, p.chunks)| == p.size
    {
      if key !in jobs { return Missing; }
      var job := jobs[key];
      job.refs := job.refs + 1;
      answer := Missing;
      if job.state == Receiving {
        var complete := dir.IsUploadFinished(key.uid, key.file, p.chunks, p.size);
        if complete {
          answer := AlreadyComplete;
        } else {
          var stored := dir.TestChunk(key.uid, key.file, number, size);
          if stored { answer := Stored; }
        }
      }
      job.refs := job.refs - 1;
      assert forall k | k in jobs :: jobs[k].AsJob() == old(jobs[k].AsJob());
    }
  }

  lemma FitsExactly(key: Key, p: Params)
    requires p.chunks >= 1
    ensures Fits(key, p) <==>
              !(key.file == "" || |key.file| > 4096 || p.size < 1
                || exists i :: 0 <= i < |key.file| && key.file[i] in "/\\\0")
  {
    assert forall c: char :: c in "/\\\0" <==> c in ['/', '\\', '\0'];
  }

  lemma FitsNamesFile(key: Key, p: Params)
    requires Fits(key, p)
    ensures key.file != ""
  {
  }

  lemma SameCount<V, W>(m: map<Key, V>, n: map<Key, W>)
    requires m.Keys == n.Keys
    ensures |m| == |n|
  {
    assert |m| == |m.Keys| && |n| == |n.Keys|;
  }

  // ---------------------------------------------------------------- the sweep, job by job

  /** The sweep with the jobs in `todo` still to be looked at. */
  ghost predicate PartlySwept(all: map<Key, Job>, before: Files, files: Files, gone: set<Key>, todo: set<Key>,
                              now: int, busy: set<Key>, stuck: set<Name>)
  {
    && todo <= all.Keys && gone <= all.Keys - todo
    && (forall key | key in all && key !in todo :: key in gone <==> key in SweptKeys(all, before, now, busy, stuck))
    && (forall name :: name in files <==>
          name in before && (Removable(all, name, now, busy, stuck) ==> NameKey(name) in todo))
    && (forall name | name in files :: files[name] == before[name])
  }

  lemma NothingSwept(all: map<Key, Job>, before: Files, now: int, busy: set<Key>, stuck: set<Name>)
    ensures PartlySwept(all, before, before, {}, all.Keys, now, busy, stuck)
  {
  }

  lemma OneKept(all: map<Key, Job>, before: Files, files: Files, gone: set<Key>, todo: set<Key>, key: Key,
                now: int, busy: set<Key>, stuck: set<Name>)
    requires PartlySwept(all, before, files, gone, todo, now, busy, stuck) && key in todo
    requires !Doomed(all, key, now, busy)
    ensures PartlySwept(all, before, files, gone, todo - {key}, now, busy, stuck)
  {
  }

  lemma OneDeleted(all: map<Key, Job>, before: Files, files: Files, files': Files, gone: set<Key>, todo: set<Key>,
                   key: Key, ok: bool, now: int, busy: set<Key>, stuck: set<Name>)
    requires PartlySwept(all, before, files, gone, todo, now, busy, stuck) && key in todo
    requires Doomed(all, key, now, busy) && all[key].key == key
    requires forall name :: name in files' <==> name in files && (OwnedBy(name, all[key]) ==> name in stuck)
    requires forall name | name in files' :: files'[name] == files[name]
    requires ok <==> forall name | name in files' :: !OwnedBy(name, all[key])
    ensures PartlySwept(all, before, files', if ok then gone + {key} else gone, todo - {key}, now, busy, stuck)
  {
    hide Owned, SweptKeys;
    OwnersDiffer(all[key]);
    assert forall name | NameKey(name) == key :: name in files <==> name in before;
    assert ok <==> key in SweptKeys(all, before, now, busy, stuck) by {
      MemberOfSwept(all, before, key, now, busy, stuck);
    }
  }

  lemma OwnersDiffer(j: Job)
    ensures forall name | OwnedBy(name, j) :: NameKey(name) == j.key
  {
  }

  lemma MemberOfSwept(all: map<Key, Job>, before: Files, key: Key, now: int, busy: set<Key>, stuck: set<Name>)
    ensures key in SweptKeys(all, before, now, busy, stuck) <==>
            && Doomed(all, key, now, busy)
            && (forall name | name in before && OwnedBy(name, all[key]) :: name !in stuck)
  {
  }

  lemma AllSwept(all: map<Key, Job>, before: Files, files: Files, gone: set<Key>, now: int, busy: set<Key>,
                 stuck: set<Name>)
    requires PartlySwept(all, before, files, gone, {}, now, busy, stuck)
    ensures files == SweptFiles(all, before, now, busy, stuck)
    ensures gone == SweptKeys(all, before, now, busy, stuck)
  {
    forall key ensures key in gone <==> key in SweptKeys(all, before, now, busy, stuck) {
    }
  }
}
