/**
 Composite tasks run twice: once to record the invocations of their unit tasks, and once to replay with the
 outputs that the dispatched invocations produced. Outputs are queued by task.
*/
module TaskContext {

  /** The contents of a task's input or output; only copied here. */
  type Value = int

  /** A mutable input or output object. */
  class Model {
    var value: Value

    constructor (value: Value)
      ensures this.value == value
    {
      this.value := value;
    }

    /** model_copy(deep=True) */
    method Copy() returns (m: Model)
      ensures fresh(m) && m.value == value
    {
      m := new Model(value);
    }
  }

  /** An assignment of the program to the object that it got or made at position `at`. */
  datatype Poke = Poke(at: nat, value: Value)

  datatype Act =
    | Call(pokes: seq<Poke>, task: nat, input: Value)
    | Return(pokes: seq<Poke>, result: Value)

  /** The `invoke` of a composite task: what it does next, given the outputs that it got so far. */
  type Program = seq<Value> -> Act

  /** make_record_output */
  type Maker = (nat, Value) -> Value

  /** Along the outputs `outs` the program calls exactly `tasks`, in this order, and returns. */
  ghost predicate Follows(p: Program, outs: seq<Value>, tasks: seq<nat>) {
    && |outs| == |tasks| && p(outs).Return?
    && forall k :: 0 <= k < |tasks| ==> CallsAt(p, outs, k, tasks[k])
  }

  ghost predicate CallsAt(p: Program, outs: seq<Value>, k: nat, task: nat)
    requires k <= |outs|
  {
    p(outs[..k]).Call? && p(outs[..k]).task == task
  }

  /** The sequence of calls does not depend on what the outputs contain. */
  ghost predicate FixedShape(p: Program, tasks: seq<nat>) {
    forall outs: seq<Value> :: |outs| <= |tasks| ==>
      if |outs| == |tasks| then p(outs).Return? else p(outs).Call? && p(outs).task == tasks[|outs|]
  }

  lemma AtStep(p: Program, outs: seq<Value>, tasks: seq<nat>, k: nat)
    requires Follows(p, outs, tasks) && k <= |outs|
    ensures p(outs[..k]).Call? <==> k < |tasks|
    ensures k < |tasks| ==> p(outs[..k]).task == tasks[k]
    ensures k == |outs| ==> outs[..k] == outs
  {
    if k < |tasks| {
      assert CallsAt(p, outs, k, tasks[k]);
    } else {
      assert outs[..k] == outs;
    }
  }

  lemma FixedShapeFollows(p: Program, outs: seq<Value>, tasks: seq<nat>)
    requires FixedShape(p, tasks) && |outs| == |tasks|
    ensures Follows(p, outs, tasks)
  {
  }

  /** The outputs that the program sees in its first `k` calls while recording. */
  ghost function RecordedOutputs(p: Program, mk: Maker, k: nat): (r: seq<Value>)
    ensures |r| == k
  {
    if k == 0 then []
    else
      var h := RecordedOutputs(p, mk, k - 1);
      h + [if p(h).Call? then mk(p(h).task, p(h).input) else 0]
  }

  lemma {:induction false} RecordedPrefix(p: Program, mk: Maker, k: nat, n: nat)
    requires k <= n
    ensures RecordedOutputs(p, mk, n)[..k] == RecordedOutputs(p, mk, k)
    decreases n
  {
    if k < n { RecordedPrefix(p, mk, k, n - 1); }
  }

  // ---- queues of outputs ----

  /** The outputs of task `t` from the `k`-th invocation on, in order. */
  function From(tasks: seq<nat>, outs: seq<Value>, k: nat, t: nat): seq<Value>
    requires |tasks| == |outs| && k <= |tasks|
    decreases |tasks| - k
  {
    if k == |tasks| then []
    else (if tasks[k] == t then [outs[k]] else []) + From(tasks, outs, k + 1, t)
  }

  /** ... and before the `k`-th. */
  function UpTo(tasks: seq<nat>, outs: seq<Value>, k: nat, t: nat): seq<Value>
    requires |tasks| == |outs| && k <= |tasks|
  {
    if k == 0 then []
    else UpTo(tasks, outs, k - 1, t) + (if tasks[k - 1] == t then [outs[k - 1]] else [])
  }

  lemma {:induction false} UpToAll(tasks: seq<nat>, outs: seq<Value>, k: nat, t: nat)
    requires |tasks| == |outs| && k <= |tasks|
    ensures UpTo(tasks, outs, k, t) + From(tasks, outs, k, t) == From(tasks, outs, 0, t)
  {
    if k > 0 { UpToAll(tasks, outs, k - 1, t); }
  }

  function Queue(queues: map<nat, seq<Value>>, t: nat): seq<Value> {
    if t in queues then queues[t] else []
  }

  ghost predicate QueuesAre(queues: map<nat, seq<Value>>, tasks: seq<nat>, outs: seq<Value>, k: nat) {
    |tasks| == |outs| && k <= |tasks| && forall t: nat :: Queue(queues, t) == From(tasks, outs, k, t)
  }

  lemma QueueStep(queues: map<nat, seq<Value>>, tasks: seq<nat>, outs: seq<Value>, k: nat)
    requires QueuesAre(queues, tasks, outs, k) && k < |tasks|
    ensures Queue(queues, tasks[k]) == [outs[k]] + From(tasks, outs, k + 1, tasks[k])
  {
    assert Queue(queues, tasks[k]) == From(tasks, outs, k, tasks[k]);
  }

  lemma QueuesStep(queues: map<nat, seq<Value>>, queues': map<nat, seq<Value>>, tasks: seq<nat>, outs: seq<Value>,
          k: nat)
    requires QueuesAre(queues, tasks, outs, k) && k < |tasks|
    requires Queue(queues, tasks[k]) == [outs[k]] + Queue(queues', tasks[k])
    requires forall t: nat :: t != tasks[k] ==> Queue(queues', t) == Queue(queues, t)
    ensures QueuesAre(queues', tasks, outs, k + 1)
  {
    QueueStep(queues, tasks, outs, k);
    forall t: nat ensures Queue(queues', t) == From(tasks, outs, k + 1, t) {
      assert Queue(queues, t) == From(tasks, outs, k, t);
      if t == tasks[k] {
        assert Queue(queues', t) == Queue(queues, t)[1..];
      } else {
        assert From(tasks, outs, k, t) == [] + From(tasks, outs, k + 1, t);
      }
    }
  }

  lemma AllDone(queues: map<nat, seq<Value>>, tasks: seq<nat>, outs: seq<Value>)
    requires QueuesAre(queues, tasks, outs, |tasks|)
    ensures forall t: nat :: Queue(queues, t) == []
  {
    forall t: nat ensures Queue(queues, t) == [] {
      assert Queue(queues, t) == From(tasks, outs, |tasks|, t);
    }
  }

  // ---- the context ----

  datatype Invocation = Invocation(task: nat, input: Model, output: Model)

  datatype Result<+T> = Ok(value: T) | RuntimeError | LengthMismatch

  class Context {
    var invocations: seq<Invocation>
    var taskOutputs: map<nat, seq<Value>>
    var isRecording: bool
    var isReplaying: bool

    constructor ()
      ensures invocations == [] && taskOutputs == map[] && !isRecording && !isReplaying
    {
      invocations, taskOutputs, isRecording, isReplaying := [], map[], false, false;
    }

    /** record_invocation: copies what the program goes on to use. */
    method RecordInvocation(task: nat, input: Model, output: Model) returns (ok: bool)
      modifies this`invocations
      ensures ok <==> isRecording && !isReplaying
      ensures !ok ==> invocations == old(invocations)
      ensures ok ==> |invocations| == |old(invocations)| + 1 && invocations[..|old(invocations)|] == old(invocations)
      ensures ok ==> var i := invocations[|old(invocations)|];
                i.task == task && i.input.value == input.value && i.output.value == output.value && fresh(i.input)
                    && fresh(i.output)
    {
      if !isRecording || isReplaying {
        return false;
      }
      var i := input.Copy();
      var o := output.Copy();
      invocations := invocations + [Invocation(task, i, o)];
      ok := true;
    }

    /** replay_invocation: the oldest output of the task that is left. */
    method ReplayInvocation(task: nat) returns (r: Result<Value>)
      modifies this`taskOutputs
      ensures r.Ok? <==> isReplaying && !isRecording && Queue(old(taskOutputs), task) != []
      ensures r.Ok? ==> Queue(old(taskOutputs), task) == [r.value] + Queue(taskOutputs, task)
      ensures forall t: nat :: t != task ==> Queue(taskOutputs, t) == Queue(old(taskOutputs), t)
    {
      if !isReplaying || isRecording || |taskOutputs| == 0 {
        return RuntimeError;
      }
      // a defaultdict: a task without outputs gets an empty list
      var queue := Queue(taskOutputs, task);
      taskOutputs := taskOutputs[task := queue];
      if queue == [] {
        return RuntimeError;
      }
      taskOutputs := taskOutputs[task := queue[1..]];
      r := Ok(queue[0]);
    }

    /** dispatch_tasks_and_wait, where `outs` is the response. */
    method Dispatch(outs: seq<Value>, ghost tasks: seq<nat>) returns (r: Result<()>)
      requires |tasks| == |invocations| && forall k :: 0 <= k < |tasks| ==> invocations[k].task == tasks[k]
      modifies this`taskOutputs
      ensures r == Ok(()) <==>
                !isRecording && !isReplaying && (|tasks| == 0 || (old(taskOutputs) == map[] && |outs| == |tasks|))
      ensures r == Ok(()) && |outs| == |tasks| && old(taskOutputs) == map[] ==> QueuesAre(taskOutputs, tasks, outs, 0)
      ensures r == LengthMismatch <==>
                !isRecording && !isReplaying && |tasks| > 0 && old(taskOutputs) == map[] && |outs| != |tasks|
    {
      if isRecording || isReplaying {
        return RuntimeError;
      }
      if |invocations| == 0 {
        return Ok(());
      }
      if |taskOutputs| != 0 {
        return RuntimeError;
      }
      if |outs| != |invocations| {
        return LengthMismatch;
      }
      for k := 0 to |outs|
        invariant forall t: nat :: Queue(taskOutputs, t) == UpTo(tasks, outs, k, t)
      {
        var t := invocations[k].task;
        taskOutputs := taskOutputs[t := Queue(taskOutputs, t) + [outs[k]]];
      }
      forall t: nat ensures Queue(taskOutputs, t) == From(tasks, outs, 0, t) {
        UpToAll(tasks, outs, |outs|, t);
      }
      r := Ok(());
    }
  }

  // ---- running a program ----

  predicate Poked(held: seq<Model>, poke: Poke)
    reads held
  {
    poke.at < |held| ==> held[poke.at].value == poke.value
  }

  /** The program changes objects that it holds. */
  method DoPokes(held: seq<Model>, pokes: seq<Poke>)
    modifies set m | m in held
    ensures |pokes| > 0 ==> Poked(held, pokes[|pokes| - 1])
  {
    for i := 0 to |pokes|
      invariant i > 0 ==> Poked(held, pokes[i - 1])
    {
      if pokes[i].at < |held| {
        held[pokes[i].at].value := pokes[i].value;
      }
    }
  }

  /** What the `k`-th recorded invocation should hold. */
  ghost predicate IsRecorded(p: Program, mk: Maker, task: nat, input: Value, output: Value, k: nat) {
    var act := p(RecordedOutputs(p, mk, k));
    act.Call? && task == act.task && input == act.input && output == mk(task, input)
  }

  /** A unit task's invoke while recording; the program keeps both objects. */
  method RecordCall(ctx: Context, act: Act, mk: Maker) returns (input: Model, output: Model)
    requires act.Call? && ctx.isRecording && !ctx.isReplaying
    modifies ctx`invocations
    ensures fresh(input) && fresh(output) && output.value == mk(act.task, act.input)
    ensures |ctx.invocations| == |old(ctx.invocations)| + 1
    ensures ctx.invocations[..|old(ctx.invocations)|] == old(ctx.invocations)
    ensures var i := ctx.invocations[|old(ctx.invocations)|];
            && i.task == act.task && i.input.value == act.input && i.output.value == mk(act.task, act.input)
            && fresh(i.input) && fresh(i.output) && {i.input, i.output} !! {input, output}
  {
    input := new Model(act.input);
    output := new Model(mk(act.task, act.input));
    var ok := ctx.RecordInvocation(act.task, input, output);
  }

  /** The first run of the program. Whatever it does to its objects, the invocations stay as they were recorded. */
  method RunRecording(ctx: Context, p: Program, mk: Maker, ghost tasks: seq<nat>)
    requires ctx.isRecording && !ctx.isReplaying && ctx.invocations == []
    requires Follows(p, RecordedOutputs(p, mk, |tasks|), tasks)
    modifies ctx`invocations
    ensures |ctx.invocations| == |tasks|
    ensures forall k :: 0 <= k < |tasks| ==> var i := ctx.invocations[k];
              i.task == tasks[k] && IsRecorded(p, mk, i.task, i.input.value, i.output.value, k)
  {
    var history: seq<Value>, held: seq<Model> := [], [];
    ghost var n := |tasks|;
    while p(history).Call?
      invariant |history| <= n && history == RecordedOutputs(p, mk, |history|) && |ctx.invocations| == |history|
      invariant forall m :: m in held ==> fresh(m)
      invariant forall k :: 0 <= k < |history| ==> var i := ctx.invocations[k];
                  fresh(i.input) && fresh(i.output) && i.input !in held && i.output !in held
      invariant forall k :: 0 <= k < |history| ==> var i := ctx.invocations[k];
                  i.task == tasks[k] && IsRecorded(p, mk, i.task, i.input.value, i.output.value, k)
      decreases n - |history|
    {
      var act := p(history);
      RecordedPrefix(p, mk, |history|, n);
      AtStep(p, RecordedOutputs(p, mk, n), tasks, |history|);
      DoPokes(held, act.pokes);
      var input, output := RecordCall(ctx, act, mk);
      held := held + [input, output];
      history := history + [output.value];
    }
    RecordedPrefix(p, mk, |history|, n);
    AtStep(p, RecordedOutputs(p, mk, n), tasks, |history|);
    DoPokes(held, p(history).pokes);
  }

  /** The second run: every call gets the output of the invocation that it recorded. */
  method RunReplay(ctx: Context, p: Program, ghost tasks: seq<nat>, ghost outs: seq<Value>) returns (r: Result<Value>)
    requires ctx.isReplaying && !ctx.isRecording && Follows(p, outs, tasks)
    requires QueuesAre(ctx.taskOutputs, tasks, outs, 0)
    modifies ctx`taskOutputs
    ensures r == Ok(p(outs).result)
    ensures forall t: nat :: Queue(ctx.taskOutputs, t) == []
  {
    var history: seq<Value> := [];
    while p(history).Call?
      invariant |history| <= |outs| && history == outs[..|history|]
      invariant QueuesAre(ctx.taskOutputs, tasks, outs, |history|)
      decreases |outs| - |history|
    {
      ghost var k, before := |history|, ctx.taskOutputs;
      AtStep(p, outs, tasks, k);
      var output := ctx.ReplayInvocation(p(history).task);
      QueueStep(before, tasks, outs, k);
      if !output.Ok? {
        return output;
      }
      assert output.value == Queue(before, tasks[k])[0] == outs[k];
      assert outs[..k + 1] == outs[..k] + [outs[k]];
      QueuesStep(before, ctx.taskOutputs, tasks, outs, k);
      history := history + [output.value];
    }
    AtStep(p, outs, tasks, |history|);
    AllDone(ctx.taskOutputs, tasks, outs);
    r := Ok(p(history).result);
  }

  /** _call_impl: record, dispatch, replay; `outs` is what the dispatcher answers. */
  method CallTask(p: Program, mk: Maker, outs: seq<Value>, ghost tasks: seq<nat>)
    returns (ctx: Context, r: Result<Value>)
    requires Follows(p, RecordedOutputs(p, mk, |tasks|), tasks)
    requires |outs| == |tasks| ==> Follows(p, outs, tasks)
    ensures fresh(ctx) && |ctx.invocations| == |tasks|
    ensures forall k :: 0 <= k < |tasks| ==> var i := ctx.invocations[k];
              i.task == tasks[k] && IsRecorded(p, mk, i.task, i.input.value, i.output.value, k)
    ensures |outs| == |tasks| ==> r == Ok(p(outs).result) && forall t: nat :: Queue(ctx.taskOutputs, t) == []
    ensures |outs| != |tasks| && |tasks| > 0 ==> r == LengthMismatch
  {
    ctx := new Context();
    ctx.isRecording := true;
    RunRecording(ctx, p, mk, tasks);
    ctx.isRecording := false;
    var d := ctx.Dispatch(outs, tasks);
    if !d.Ok? {
      return ctx, if d.LengthMismatch? then LengthMismatch else RuntimeError;
    }
    ctx.isReplaying := true;
    if |outs| == |ctx.invocations| {
      r := RunReplay(ctx, p, tasks, outs);
    } else {
      // nothing was recorded, so the response does not matter
      r := if p([]).Return? then Ok(p([]).result) else RuntimeError;
    }
    ctx.isReplaying := false;
  }
}
