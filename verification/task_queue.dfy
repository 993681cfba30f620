/**
 * The task-status table of backend/services/queue_service.py: the records
 * the simulated audio task writes, and the queries over them. The Celery
 * broker, the sleeps and the clock are not modelled; the generated task id
 * and the timestamps are parameters.
 */
module TaskQueue {
  import opened Wrappers
  import opened Strings

  /** A value held in a task record; `Tenths(105)` is the float 10.5. */
  datatype Value = Text(s: string) | Number(n: int) | Tenths(t: int) | Nested(fields: map<string, Value>)

  type TaskRecord = map<string, Value>

  /** `record.get(key) == Text(text)`. */
  predicate Holds(r: TaskRecord, key: string, text: string) {
    key in r && r[key] == Text(text)
  }

  predicate IsProcessing(r: TaskRecord) {
    Holds(r, "status", "processing")
  }

  predicate IsQueued(r: TaskRecord) {
    Holds(r, "status", "queued")
  }

  /** `record.get('start_time', '')` for a record whose start time, if any, is text. */
  function StartTime(r: TaskRecord): string {
    if "start_time" in r && r["start_time"].Text? then r["start_time"].s else ""
  }

  /** Python's `<` on strings: code point by code point, a proper prefix first. */
  predicate Less(a: string, b: string)
    decreases |a|
  {
    if a == [] then b != []
    else if b == [] then false
    else if a[0] != b[0] then a[0] < b[0]
    else Less(a[1..], b[1..])
  }

  lemma {:induction false} LessIrreflexive(a: string)
    ensures !Less(a, a)
    decreases |a|
  {
    if a != [] {
      LessIrreflexive(a[1..]);
    }
  }

  lemma {:induction false} LessTransitive(a: string, b: string, c: string)
    requires Less(a, b) && Less(b, c)
    ensures Less(a, c)
    decreases |a|
  {
    if a != [] && b != [] && c != [] && a[0] == b[0] && b[0] == c[0] {
      LessTransitive(a[1..], b[1..], c[1..]);
    }
  }

  /** Exactly one of `a < b`, `a == b`, `b < a` holds. */
  lemma {:induction false} LessTrichotomy(a: string, b: string)
    ensures Less(a, b) || a == b || Less(b, a)
    ensures !(Less(a, b) && Less(b, a))
    decreases |a|
  {
    if a != [] && b != [] && a[0] == b[0] {
      LessTrichotomy(a[1..], b[1..]);
      if a[1..] == b[1..] {
        assert a == [a[0]] + a[1..] && b == [b[0]] + b[1..];
      }
    }
  }

  /** The ids among `ids` whose records satisfy `p`. */
  function Matching(tasks: map<string, TaskRecord>, ids: set<string>, p: TaskRecord -> bool): set<string> {
    set id | id in ids && id in tasks && p(tasks[id])
  }

  /** Visiting one more id adds it to the matches exactly when its record satisfies `p`. */
  lemma MatchingAdd(tasks: map<string, TaskRecord>, ids: set<string>, x: string, p: TaskRecord -> bool)
    requires x in tasks && x !in ids
    ensures |Matching(tasks, ids + {x}, p)| == |Matching(tasks, ids, p)| + (if p(tasks[x]) then 1 else 0)
  {
    if p(tasks[x]) {
      assert Matching(tasks, ids + {x}, p) == Matching(tasks, ids, p) + {x};
    } else {
      assert Matching(tasks, ids + {x}, p) == Matching(tasks, ids, p);
    }
  }

  /** Moving one id from the unvisited to the visited set keeps them disjoint with the same union. */
  lemma MoveOne(remaining: set<string>, visited: set<string>, id: string)
    requires id in remaining && remaining !! visited
    ensures (remaining - {id}) + (visited + {id}) == remaining + visited
    ensures (remaining - {id}) !! (visited + {id})
    ensures |remaining - {id}| < |remaining|
  {
  }

  /** The tasks that are processing. */
  function ProcessingIds(tasks: map<string, TaskRecord>): set<string> {
    Matching(tasks, tasks.Keys, IsProcessing)
  }

  /** Queued, and started strictly before `own`. */
  function QueuedBefore(own: string): TaskRecord -> bool {
    r => IsQueued(r) && Less(StartTime(r), own)
  }

  /** The queued tasks that started strictly before task `id`. */
  function Ahead(tasks: map<string, TaskRecord>, id: string): set<string>
    requires id in tasks
  {
    Matching(tasks, tasks.Keys, QueuedBefore(StartTime(tasks[id])))
  }

  lemma {:induction false} SubsetCardinality(a: set<string>, b: set<string>)
    requires a <= b
    ensures |a| <= |b|
    ensures a < b ==> |a| < |b|
    decreases |b|
  {
    if a != {} {
      var x :| x in a;
      if a < b {
        var y :| y in b && y !in a;
        assert y in b - {x} && y !in a - {x};
      }
      SubsetCardinality(a - {x}, b - {x});
      assert |a| == |a - {x}| + 1 && |b| == |b - {x}| + 1;
    } else if a < b {
      var x :| x in b;
    }
  }

  /** `get_task_status`: the stored record, or `{'status': 'not_found'}` for an unknown id. */
  function GetTaskStatus(tasks: map<string, TaskRecord>, id: string): (r: TaskRecord)
    ensures id in tasks ==> r == tasks[id]
    ensures id !in tasks ==> r == map["status" := Text("not_found")]
  {
    if id in tasks then tasks[id] else map["status" := Text("not_found")]
  }

  /** A task never waits behind itself, so its position is below the number of tasks. */
  lemma AheadExcludesSelf(tasks: map<string, TaskRecord>, id: string)
    requires id in tasks
    ensures id !in Ahead(tasks, id)
    ensures |Ahead(tasks, id)| < |tasks|
  {
    LessIrreflexive(StartTime(tasks[id]));
    assert Ahead(tasks, id) <= tasks.Keys - {id};
    SubsetCardinality(Ahead(tasks, id), tasks.Keys - {id});
  }

  /** A queued task that started before another is ahead of it and waits behind strictly fewer. */
  lemma EarlierWaitsLess(tasks: map<string, TaskRecord>, a: string, b: string)
    requires a in tasks && b in tasks && IsQueued(tasks[a])
    requires Less(StartTime(tasks[a]), StartTime(tasks[b]))
    ensures a in Ahead(tasks, b) && Ahead(tasks, a) < Ahead(tasks, b)
    ensures |Ahead(tasks, a)| < |Ahead(tasks, b)|
  {
    forall o | o in Ahead(tasks, a) ensures o in Ahead(tasks, b) {
      LessTransitive(StartTime(tasks[o]), StartTime(tasks[a]), StartTime(tasks[b]));
    }
    LessIrreflexive(StartTime(tasks[a]));
    assert a !in Ahead(tasks, a);
    assert a in Ahead(tasks, b);
    SubsetCardinality(Ahead(tasks, a), Ahead(tasks, b));
  }

  /** No record is queued; nothing in the module ever writes the status `queued`. */
  predicate NoneQueued(tasks: map<string, TaskRecord>) {
    forall id | id in tasks :: !IsQueued(tasks[id])
  }

  /** With no queued record, every known task is at position 0. */
  lemma NoneQueuedNoneAhead(tasks: map<string, TaskRecord>, id: string)
    requires id in tasks && NoneQueued(tasks)
    ensures Ahead(tasks, id) == {}
  {
  }

  /** Only the last of several writes to one key survives. */
  lemma Overwrite(m: map<string, TaskRecord>, k: string, a: TaskRecord, b: TaskRecord, c: TaskRecord)
    ensures m[k := a][k := b][k := c] == m[k := c]
  {
  }

  /** Writing a record that is not queued keeps the board free of queued records. */
  lemma NoneQueuedUpdate(tasks: map<string, TaskRecord>, id: string, r: TaskRecord)
    requires NoneQueued(tasks) && !IsQueued(r)
    ensures NoneQueued(tasks[id := r])
  {
  }

  /** The records of the simulated task. */
  function ProcessingRecord(userId: Value, startTime: string, progress: int): (r: TaskRecord)
    ensures IsProcessing(r) && StartTime(r) == startTime
  {
    map["status" := Text("processing"), "progress" := Number(progress), "user_id" := userId,
        "start_time" := Text(startTime), "queue_position" := Number(0)]
  }

  /** Setting the progress of a processing record gives the record with that progress. */
  lemma ProgressUpdate(userId: Value, startTime: string, a: int, b: int)
    ensures ProcessingRecord(userId, startTime, a)["progress" := Number(b)] == ProcessingRecord(userId, startTime, b)
  {
  }

  function TaskResult(taskId: string): map<string, Value> {
    map["audio_path" := Text("audio_" + taskId + ".wav"), "status" := Text("completed"), "duration" := Tenths(105)]
  }

  function CompletedRecord(userId: Value, taskId: string, endTime: string): (r: TaskRecord)
    ensures !IsProcessing(r) && !IsQueued(r)
  {
    map["status" := Text("completed"), "progress" := Number(100), "user_id" := userId,
        "result" := Nested(TaskResult(taskId)), "end_time" := Text(endTime)]
  }

  /** The id a task runs under: the given one, or `newId` (a `str(uuid.uuid4())`) when none or an empty one is given. */
  function TaskId(given: Option<string>, newId: string): string {
    if given.Some? && given.value != "" then given.value else newId
  }

  /** The module-level `task_status` dictionary and the functions over it. */
  class TaskBoard {
    var tasks: map<string, TaskRecord>

    constructor()
      ensures tasks == map[] && NoneQueued(tasks)
    {
      tasks := map[];
    }

    /** `get_queue_length`: the number of processing tasks. */
    method GetQueueLength() returns (n: nat)
      ensures n == |ProcessingIds(tasks)|
    {
      n := CountMatching(IsProcessing);
    }

    /** `get_queue_position`: -1 for an unknown id, otherwise the queued tasks that started before it. */
    method GetQueuePosition(id: string) returns (p: int)
      ensures id !in tasks ==> p == -1
      ensures id in tasks ==> p == |Ahead(tasks, id)|
    {
      if id !in tasks {
        return -1;
      }
      p := CountMatching(QueuedBefore(StartTime(tasks[id])));
    }

    /** The loop both queries run: one pass over the records, counting those that satisfy `p`. */
    method CountMatching(p: TaskRecord -> bool) returns (n: nat)
      ensures n == |Matching(tasks, tasks.Keys, p)|
    {
      n := 0;
      var remaining := tasks.Keys;
      ghost var visited: set<string> := {};
      while remaining != {}
        invariant remaining !! visited && remaining + visited == tasks.Keys
        invariant n == |Matching(tasks, visited, p)|
        decreases |remaining|
      {
        var id :| id in remaining;
        MatchingAdd(tasks, visited, id, p);
        if p(tasks[id]) {
          n := n + 1;
        }
        MoveOne(remaining, visited, id);
        remaining := remaining - {id};
        visited := visited + {id};
      }
    }

    /** The progress loop of `generate_audio_task`: ten steps of 10 on the processing record. */
    method RaiseProgress(taskId: string, userId: Value, startTime: string) returns (progress: seq<int>)
      requires taskId in tasks && tasks[taskId] == ProcessingRecord(userId, startTime, 0)
      modifies this
      ensures progress == seq(10, i => (i + 1) * 10)
      ensures tasks == old(tasks)[taskId := ProcessingRecord(userId, startTime, 100)]
    {
      progress := [];
      var i := 0;
      while i < 10
        invariant 0 <= i <= 10
        invariant tasks == old(tasks)[taskId := ProcessingRecord(userId, startTime, i * 10)]
        invariant progress == seq(i, k => (k + 1) * 10)
      {
        ProgressUpdate(userId, startTime, i * 10, (i + 1) * 10);
        tasks := tasks[taskId := tasks[taskId]["progress" := Number((i + 1) * 10)]];
        progress := progress + [(i + 1) * 10];
        i := i + 1;
      }
    }

    /**
     * `generate_audio_task`: the task is recorded as processing, its
     * progress raised through 10, 20, ..., 100, and the record replaced by
     * a completed one holding the result.
     */
    method GenerateAudioTask(userId: Value, given: Option<string>, newId: string, startTime: string, endTime: string)
      returns (result: map<string, Value>, progress: seq<int>)
      modifies this
      ensures result == TaskResult(TaskId(given, newId))
      ensures progress == seq(10, i => (i + 1) * 10)
      ensures tasks == old(tasks)[TaskId(given, newId) := CompletedRecord(userId, TaskId(given, newId), endTime)]
      ensures NoneQueued(old(tasks)) ==> NoneQueued(tasks)
    {
      var taskId := TaskId(given, newId);
      ghost var before := tasks;
      tasks := tasks[taskId := ProcessingRecord(userId, startTime, 0)];
      progress := RaiseProgress(taskId, userId, startTime);
      result := TaskResult(taskId);
      tasks := tasks[taskId := CompletedRecord(userId, taskId, endTime)];
      Overwrite(before, taskId, ProcessingRecord(userId, startTime, 0), ProcessingRecord(userId, startTime, 100),
                CompletedRecord(userId, taskId, endTime));
      if NoneQueued(before) {
        NoneQueuedUpdate(before, taskId, CompletedRecord(userId, taskId, endTime));
      }
    }
  }
}
