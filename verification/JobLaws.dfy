/**
 What a store of running jobs answers, told from the calls alone: the last registration of a job
 that was not removed since, with the time of its last heartbeat.
 */
module JobLaws {
  import opened Common
  import opened OrderedMaps
  import opened JobLiveness

  // ----- jobs and their keys -----

  datatype Job = Job(queue: string, id: string)

  function KeyIn(job: Job): string { Key(job.queue, job.id) }

  function JobOf(record: JobRecord): Job { Job(record.queue, record.jobId) }

  /** The longer queue name goes on with a colon and a text, with which the other's job id begins. */
  ghost predicate Overlap(a: Job, b: Job) {
    exists s: string :: b.queue == a.queue + ":" + s && a.id == s + ":" + b.id
  }

  lemma SameKeySplits(a: Job, b: Job)
    requires KeyIn(a) == KeyIn(b) && |a.queue| < |b.queue|
    ensures Overlap(a, b)
  {
    var n, m := |a.queue|, |b.queue|;
    var s := b.queue[n + 1..];
    assert KeyIn(a)[..n] == a.queue && KeyIn(a)[n] == ':' && KeyIn(a)[n + 1..] == a.id;
    assert KeyIn(b)[..m] == b.queue && KeyIn(b)[m] == ':' && KeyIn(b)[m + 1..] == b.id;
    assert b.queue == a.queue + ":" + s;
    assert a.id == KeyIn(b)[n + 1..m] + KeyIn(b)[m..m + 1] + KeyIn(b)[m + 1..];
  }

  lemma OverlapSameKey(a: Job, b: Job)
    requires Overlap(a, b)
    ensures KeyIn(a) == KeyIn(b)
  {
    var s :| b.queue == a.queue + ":" + s && a.id == s + ":" + b.id;
    assert a.queue + ":" + (s + ":" + b.id) == a.queue + ":" + s + ":" + b.id;
  }

  /** Two jobs share a key exactly when they are one job or their names overlap at a colon. */
  lemma SameKeyIff(a: Job, b: Job)
    ensures KeyIn(a) == KeyIn(b) <==> a == b || Overlap(a, b) || Overlap(b, a)
  {
    if KeyIn(a) == KeyIn(b) {
      if |a.queue| < |b.queue| {
        SameKeySplits(a, b);
      } else if |b.queue| < |a.queue| {
        SameKeySplits(b, a);
      } else {
        assert a.queue == KeyIn(a)[..|a.queue|] && b.queue == KeyIn(b)[..|b.queue|];
        assert a.id == KeyIn(a)[|a.queue| + 1..] && b.id == KeyIn(b)[|b.queue| + 1..];
      }
    }
    if Overlap(a, b) { OverlapSameKey(a, b); }
    if Overlap(b, a) { OverlapSameKey(b, a); }
  }

  lemma PlainKeys(a: Job, b: Job)
    requires ':' !in a.queue && ':' !in b.queue && KeyIn(a) == KeyIn(b)
    ensures a == b
  {
    SameKeyIff(a, b);
    forall s: string ensures b.queue != a.queue + ":" + s && a.queue != b.queue + ":" + s {
      assert ':' in a.queue + ":" + s && ':' in b.queue + ":" + s;
    }
  }

  // ----- the answers, from the calls alone -----

  /** The jobs that a call names. */
  function Named(op: Op): set<Job> {
    match op
    case Register(record) => {JobOf(record)}
    case Heartbeat(q, j, _) => {Job(q, j)}
    case Get(q, j) => {Job(q, j)}
    case Remove(q, j) => {Job(q, j)}
    case ListActive => {}
  }

  /** No call names another job with the key of this one. */
  ghost predicate Apart(ops: seq<Op>, job: Job) {
    forall op, other :: op in ops && other in Named(op) && KeyIn(other) == KeyIn(job) ==> other == job
  }

  /** Queue names without a colon keep all jobs of a run apart. */
  lemma PlainQueuesApart(ops: seq<Op>, job: Job)
    requires ':' !in job.queue && forall op, other :: op in ops && other in Named(op) ==> ':' !in other.queue
    ensures Apart(ops, job)
  {
    forall op, other | op in ops && other in Named(op) && KeyIn(other) == KeyIn(job) ensures other == job {
      PlainKeys(other, job);
    }
  }

  /** The job's record after the calls, if it is active. */
  function Latest(ops: seq<Op>, job: Job): Option<JobRecord> {
    if ops == [] then None
    else
      var before := Latest(ops[..|ops| - 1], job);
      match ops[|ops| - 1]
      case Register(record) => if record.queue == job.queue && record.jobId == job.id then Some(record) else before
      case Heartbeat(q, j, at) =>
        if q == job.queue && j == job.id && before.Some? then Some(before.value.(lastHeartbeatAtMs := at)) else before
      case Remove(q, j) => if q == job.queue && j == job.id then None else before
      case _ => before
  }

  /** The map store after the calls. */
  function After(m: Memory, ops: seq<Op>): (r: Memory)
    requires m.Valid()
    ensures r.Valid()
  {
    if ops == [] then m
    else
      var before := After(m, ops[..|ops| - 1]);
      MemoryStepValid(before, ops[|ops| - 1]);
      MemoryStep(before, ops[|ops| - 1]).0
  }

  lemma StepHoldsLatest(m: Memory, op: Op, before: seq<Op>, job: Job)
    requires m.Valid() && Apart([op], job) && MemoryGet(m, KeyIn(job)) == Latest(before, job)
    ensures MemoryGet(MemoryStep(m, op).0, KeyIn(job)) == Latest(before + [op], job)
  {
    LatestStep(before, op, job);
    match op
    case Register(record) => OnlyKey(op, job, JobOf(record));
    case Heartbeat(q, j, at) => OnlyKey(op, job, Job(q, j));
    case Remove(q, j) => OnlyKey(op, job, Job(q, j));
    case _ =>
  }

  lemma LatestStep(before: seq<Op>, op: Op, job: Job)
    ensures Latest(before + [op], job) ==
      match op
      case Register(record) => if JobOf(record) == job then Some(record) else Latest(before, job)
      case Heartbeat(q, j, at) =>
        if Job(q, j) == job && Latest(before, job).Some? then
          Some(Latest(before, job).value.(lastHeartbeatAtMs := at))
        else Latest(before, job)
      case Remove(q, j) => if Job(q, j) == job then None else Latest(before, job)
      case _ => Latest(before, job)
  {
    assert (before + [op])[..|before|] == before;
  }

  lemma OnlyKey(op: Op, job: Job, other: Job)
    requires Apart([op], job) && other in Named(op)
    ensures KeyIn(other) == KeyIn(job) <==> other == job
    ensures Key(other.queue, other.id) == KeyIn(job) <==> other.queue == job.queue && other.id == job.id
  {
    assert op in [op];
  }

  lemma {:induction false} HoldsLatest(ops: seq<Op>, job: Job)
    requires Apart(ops, job)
    ensures MemoryGet(After(NoJobs, ops), KeyIn(job)) == Latest(ops, job)
  {
    if ops != [] {
      var before, op := ops[..|ops| - 1], ops[|ops| - 1];
      TakeAll(ops);
      HoldsLatest(before, job);
      StepHoldsLatest(After(NoJobs, before), op, before, job);
    }
  }

  lemma {:induction false} AfterFirst(m: Memory, ops: seq<Op>, n: nat)
    requires m.Valid() && ops != [] && n < |ops|
    ensures MemoryStep(m, ops[0]).0.Valid()
    ensures After(MemoryStep(m, ops[0]).0, ops[1..][..n]) == After(m, ops[..n + 1])
  {
    MemoryStepValid(m, ops[0]);
    if n == 0 {
      assert ops[..1][..0] == [];
    } else {
      AfterFirst(m, ops, n - 1);
      assert ops[1..][..n][..n - 1] == ops[1..][..n - 1] && ops[..n + 1][..n] == ops[..n];
    }
  }

  /** The i-th answer is given in the state after the calls before it. */
  lemma {:induction false} AnswerAt(m: Memory, ops: seq<Op>, i: nat)
    requires m.Valid() && i < |ops|
    ensures |MemoryRun(m, ops)| == |ops| && MemoryRun(m, ops)[i] == MemoryStep(After(m, ops[..i]), ops[i]).1
    decreases i
  {
    RunLength(m, ops);
    if i > 0 {
      MemoryStepValid(m, ops[0]);
      AnswerAt(MemoryStep(m, ops[0]).0, ops[1..], i - 1);
      AfterFirst(m, ops, i - 1);
    }
  }

  lemma {:induction false} RunLength(m: Memory, ops: seq<Op>)
    requires m.Valid()
    ensures |MemoryRun(m, ops)| == |ops|
    decreases |ops|
  {
    if ops != [] {
      MemoryStepValid(m, ops[0]);
      RunLength(MemoryStep(m, ops[0]).0, ops[1..]);
    }
  }

  /** A lookup answers with the job's latest record, a heartbeat with the record it leaves. */
  lemma AnswersLatest(ops: seq<Op>, i: nat)
    requires i < |ops| && (ops[i].Get? || ops[i].Heartbeat?)
    requires Apart(ops, Job(ops[i].queue, ops[i].jobId))
    ensures |MemoryRun(NoJobs, ops)| == |ops|
    ensures MemoryRun(NoJobs, ops)[i] == Answer.One(Latest(ops[..i + 1], Job(ops[i].queue, ops[i].jobId)))
  {
    var job := Job(ops[i].queue, ops[i].jobId);
    AnswerAt(NoJobs, ops, i);
    assert forall op :: op in ops[..i] ==> op in ops;
    HoldsLatest(ops[..i], job);
    StepHoldsLatest(After(NoJobs, ops[..i]), ops[i], ops[..i], job);
    TakeOneMore(ops, i);
  }

  /** A listing holds the latest record of every active job, and no other. */
  lemma ListsLatest(ops: seq<Op>, i: nat)
    requires i < |ops| && ops[i].ListActive?
    requires forall op, job :: op in ops && job in Named(op) ==> Apart(ops, job)
    ensures |MemoryRun(NoJobs, ops)| == |ops| && MemoryRun(NoJobs, ops)[i].Many?
    ensures forall r :: r in MemoryRun(NoJobs, ops)[i].records <==> Latest(ops[..i], JobOf(r)) == Some(r)
  {
    AnswerAt(NoJobs, ops, i);
    var m := After(NoJobs, ops[..i]);
    EntriesNamed(ops[..i]);
    forall r ensures r in m.Values() <==> Latest(ops[..i], JobOf(r)) == Some(r) {
      ListedIff(ops, i, r);
    }
  }

  ghost predicate KeyedByJob(m: Memory, ops: seq<Op>) {
    forall k :: k in m.entries ==>
      k == KeyOf(m.entries[k]) && exists op :: op in ops && JobOf(m.entries[k]) in Named(op)
  }

  lemma {:induction false} EntriesNamed(ops: seq<Op>)
    ensures KeyedByJob(After(NoJobs, ops), ops)
  {
    if ops != [] {
      var before, op := ops[..|ops| - 1], ops[|ops| - 1];
      EntriesNamed(before);
      TakeAll(ops);
      StepKeyed(After(NoJobs, before), op, before);
    }
  }

  lemma StepKeyed(m: Memory, op: Op, before: seq<Op>)
    requires m.Valid() && KeyedByJob(m, before)
    ensures KeyedByJob(MemoryStep(m, op).0, before + [op])
  {
    var m' := MemoryStep(m, op).0;
    forall k | k in m'.entries
      ensures k == KeyOf(m'.entries[k]) && exists o :: o in before + [op] && JobOf(m'.entries[k]) in Named(o)
    {
      if k in m.entries {
        var o :| o in before && JobOf(m.entries[k]) in Named(o);
        assert o in before + [op];
      }
      assert op in before + [op];
    }
  }

  lemma {:induction false} LatestNamed(ops: seq<Op>, job: Job)
    requires Latest(ops, job).Some?
    ensures JobOf(Latest(ops, job).value) == job && exists op :: op in ops && job in Named(op)
  {
    var before, op := ops[..|ops| - 1], ops[|ops| - 1];
    TakeAll(ops);
    assert op in ops;
    if op.Register? && JobOf(op.record) == job {
      assert job in Named(op);
    } else {
      LatestNamed(before, job);
      var o :| o in before && job in Named(o);
      assert o in ops;
    }
  }

  lemma ListedIff(ops: seq<Op>, i: nat, r: JobRecord)
    requires i <= |ops| && KeyedByJob(After(NoJobs, ops[..i]), ops[..i])
    requires forall op, job :: op in ops && job in Named(op) ==> Apart(ops, job)
    ensures r in After(NoJobs, ops[..i]).Values() <==> Latest(ops[..i], JobOf(r)) == Some(r)
  {
    var m, calls := After(NoJobs, ops[..i]), ops[..i];
    assert forall op :: op in calls ==> op in ops;
    if r in m.Values() {
      var k :| 0 <= k < |m.keys| && m.Values()[k] == r;
      assert m.keys[k] in m.entries;
      var op :| op in calls && JobOf(r) in Named(op);
      assert Apart(ops, JobOf(r));
      HoldsLatest(calls, JobOf(r));
    }
    if Latest(calls, JobOf(r)) == Some(r) {
      LatestNamed(calls, JobOf(r));
      var op :| op in calls && JobOf(r) in Named(op);
      assert Apart(ops, JobOf(r));
      HoldsLatest(calls, JobOf(r));
      assert KeyOf(r) in m.keys;
      var k :| 0 <= k < |m.keys| && m.keys[k] == KeyOf(r);
      assert m.Values()[k] == r;
    }
  }

  /** Jobs whose names overlap at a colon are taken for each other: one is found under the other's name. */
  lemma OverlapConfuses(record: JobRecord, job: Job, ops: seq<Op>)
    requires KeyIn(job) == KeyOf(record) && ops == [Register(record), Get(job.queue, job.id)]
    ensures |MemoryRun(NoJobs, ops)| == 2 && MemoryRun(NoJobs, ops)[1] == Answer.One(Some(record))
  {
    AnswerAt(NoJobs, ops, 1);
    assert ops[..1] == [Register(record)] && ops[..1][..0] == [];
    assert After(NoJobs, ops[..1]) == MemoryRegister(NoJobs, record);
  }
}
