/** `renderMermaid` of packages/web-theme/mermaid.ts: jobs share one global configuration of the
    renderer and are chained by a module-level promise. */
module RenderQueue {
  import opened OrderedMap

  datatype Theme = Dark | Default

  /** `Rendering` lasts from `initialize` until the promise of `render` settles. */
  datatype Stage = Waiting | Importing | Rendering(id: nat) | Settled(rendered: bool)

  /** `after` is the promise that the job was chained to: the job called before it, if any. */
  datatype Job = Job(theme: Theme, after: Option<nat>, stage: Stage)

  /** `queue` is the job whose settling the module variable `renderQueue` waits for, `config` the
      renderer's global theme, and `rendered` lists the jobs and ids handed to `render`. */
  datatype World = World(jobs: seq<Job>, queue: Option<nat>, nextDiagramId: nat, config: Option<Theme>, rendered: seq<(nat, nat)>)

  const START := World([], None, 0, None, [])

  datatype Action =
    | Call(theme: Theme)
    | Start(job: nat)
    | Imported(job: nat)
    | ImportFails(job: nat)
    | RenderSettles(job: nat, ok: bool)

  predicate Done(w: World, j: Option<nat>) {
    j.None? || (j.value < |w.jobs| && w.jobs[j.value].stage.Settled?)
  }

  function Put(w: World, j: nat, stage: Stage): World
    requires j < |w.jobs|
  {
    w.(jobs := w.jobs[j := w.jobs[j].(stage := stage)])
  }

  function Step(w: World, a: Action): World {
    match a
    case Call(theme) => w.(jobs := w.jobs + [Job(theme, w.queue, Waiting)], queue := Some(|w.jobs|))
    case Start(j) =>
      if j < |w.jobs| && w.jobs[j].stage.Waiting? && Done(w, w.jobs[j].after) then Put(w, j, Importing) else w
    case Imported(j) =>
      if j < |w.jobs| && w.jobs[j].stage.Importing? then
        var id := w.nextDiagramId + 1;
        Put(w, j, Rendering(id)).(nextDiagramId := id, config := Some(w.jobs[j].theme), rendered := w.rendered + [(j, id)])
      else w
    case ImportFails(j) => if j < |w.jobs| && w.jobs[j].stage.Importing? then Put(w, j, Settled(false)) else w
    case RenderSettles(j, ok) => if j < |w.jobs| && w.jobs[j].stage.Rendering? then Put(w, j, Settled(ok)) else w
  }

  function Run(w: World, actions: seq<Action>): World {
    if actions == [] then w else Step(Run(w, actions[..|actions| - 1]), actions[|actions| - 1])
  }

  /** The module variables, reassigned on each call and by each job. */
  class MermaidQueue {
    var jobs: seq<Job>
    var renderQueue: Option<nat>
    var nextDiagramId: nat
    var config: Option<Theme>
    ghost var rendered: seq<(nat, nat)>

    ghost function State(): World
      reads this
    {
      World(jobs, renderQueue, nextDiagramId, config, rendered)
    }

    constructor ()
      ensures State() == START
    {
      jobs, renderQueue, nextDiagramId, config, rendered := [], None, 0, None, [];
    }

    method RenderMermaid(theme: Theme) returns (job: nat)
      modifies this
      ensures State() == Step(old(State()), Call(theme)) && job == |old(jobs)|
    {
      job := |jobs|;
      jobs := jobs + [Job(theme, renderQueue, Waiting)];
      renderQueue := Some(job);
    }

    /** The chained callback, after its import. */
    method RenderAfterImport(job: nat) returns (id: nat)
      requires job < |jobs| && jobs[job].stage.Importing?
      modifies this
      ensures State() == Step(old(State()), Imported(job)) && id == nextDiagramId
    {
      config := Some(jobs[job].theme);
      nextDiagramId := nextDiagramId + 1;
      id := nextDiagramId;
      jobs := jobs[job := jobs[job].(stage := Rendering(id))];
      rendered := rendered + [(job, id)];
    }

    method Settle(job: nat, ok: bool)
      requires job < |jobs| && jobs[job].stage.Rendering?
      modifies this`jobs
      ensures State() == Step(old(State()), RenderSettles(job, ok))
    {
      jobs := jobs[job := jobs[job].(stage := Settled(ok))];
    }
  }

  // ------------------------------------------------------------------ invariant

  predicate Running(w: World, j: nat) {
    j < |w.jobs| && (w.jobs[j].stage.Importing? || w.jobs[j].stage.Rendering?)
  }

  ghost predicate Chained(w: World) {
    && w.queue == (if w.jobs == [] then None else Some(|w.jobs| - 1))
    && (forall j :: 0 <= j < |w.jobs| ==> w.jobs[j].after == if j == 0 then None else Some(j - 1))
    && (forall i, j :: 0 <= i < j < |w.jobs| && !w.jobs[j].stage.Waiting? ==> w.jobs[i].stage.Settled?)
  }

  ghost predicate RenderInv(w: World) {
    && (forall j :: 0 <= j < |w.jobs| && w.jobs[j].stage.Rendering? ==>
          w.config == Some(w.jobs[j].theme) && w.jobs[j].stage.id == w.nextDiagramId)
    && (forall k :: 0 <= k < |w.rendered| ==>
          && w.rendered[k].0 < |w.jobs| && w.rendered[k].1 <= w.nextDiagramId
          && (w.jobs[w.rendered[k].0].stage.Rendering? || w.jobs[w.rendered[k].0].stage.Settled?))
    && (forall k, l :: 0 <= k < l < |w.rendered| ==> w.rendered[k].0 < w.rendered[l].0 && w.rendered[k].1 < w.rendered[l].1)
  }

  lemma CallKeepsInv(w: World, theme: Theme)
    requires Chained(w) && RenderInv(w)
    ensures Chained(Step(w, Call(theme))) && RenderInv(Step(w, Call(theme)))
  {
    var jobs := Step(w, Call(theme)).jobs;
    assert forall j :: 0 <= j < |w.jobs| ==> jobs[j] == w.jobs[j];
  }

  lemma StartKeepsInv(w: World, j: nat)
    requires Chained(w) && RenderInv(w)
    ensures Chained(Step(w, Start(j))) && RenderInv(Step(w, Start(j)))
  {
  }

  lemma ImportedKeepsInv(w: World, j: nat)
    requires Chained(w) && RenderInv(w)
    ensures Chained(Step(w, Imported(j))) && RenderInv(Step(w, Imported(j)))
  {
    if j < |w.jobs| && w.jobs[j].stage.Importing? {
      assert forall k :: 0 <= k < |w.rendered| ==> w.rendered[k].0 < j;
      assert forall i :: 0 <= i < |w.jobs| ==> !w.jobs[i].stage.Rendering?;
    }
  }

  lemma SettleKeepsInv(w: World, a: Action)
    requires Chained(w) && RenderInv(w) && (a.ImportFails? || a.RenderSettles?)
    ensures Chained(Step(w, a)) && RenderInv(Step(w, a))
  {
  }

  lemma StepKeepsInv(w: World, a: Action)
    requires Chained(w) && RenderInv(w)
    ensures Chained(Step(w, a)) && RenderInv(Step(w, a))
  {
    match a
    case Call(theme) => CallKeepsInv(w, theme);
    case Start(j) => StartKeepsInv(w, j);
    case Imported(j) => ImportedKeepsInv(w, j);
    case _ => SettleKeepsInv(w, a);
  }

  lemma {:induction false} RunKeepsInv(actions: seq<Action>)
    ensures Chained(Run(START, actions)) && RenderInv(Run(START, actions))
  {
    if actions != [] {
      RunKeepsInv(actions[..|actions| - 1]);
      StepKeepsInv(Run(START, actions[..|actions| - 1]), actions[|actions| - 1]);
    }
  }

  // ------------------------------------------------------------- guarantees

  /** For every sequence of calls and every pattern of failures: no two jobs run at once, a job
      runs only after all earlier calls have settled, a running render sees the theme of its own
      call, and the ids handed to `render` increase in call order. */
  lemma RendersAreSerial(actions: seq<Action>)
    ensures var w := Run(START, actions);
      && (forall i, j :: Running(w, i) && Running(w, j) ==> i == j)
      && (forall i, j :: 0 <= i < j && Running(w, j) ==> w.jobs[i].stage.Settled?)
      && (forall j :: 0 <= j < |w.jobs| && w.jobs[j].stage.Rendering? ==> w.config == Some(w.jobs[j].theme))
      && (forall k, l :: 0 <= k < l < |w.rendered| ==> w.rendered[k].0 < w.rendered[l].0 && w.rendered[k].1 < w.rendered[l].1)
  {
    RunKeepsInv(actions);
  }

  /** The steps that jobs still have to make. */
  function Left(jobs: seq<Job>): nat {
    if jobs == [] then 0 else Left(jobs[..|jobs| - 1]) + LeftOf(jobs[|jobs| - 1].stage)
  }

  function LeftOf(stage: Stage): nat {
    match stage
    case Waiting => 3
    case Importing => 2
    case Rendering(_) => 1
    case Settled(_) => 0
  }

  lemma {:induction false} LeftAfterPut(jobs: seq<Job>, j: nat, job: Job)
    requires j < |jobs|
    ensures Left(jobs[j := job]) + LeftOf(jobs[j].stage) == Left(jobs) + LeftOf(job.stage)
  {
    var n := |jobs| - 1;
    if j < n {
      LeftAfterPut(jobs[..n], j, job);
      assert jobs[j := job][..n] == jobs[..n][j := job];
    } else {
      assert jobs[j := job][..n] == jobs[..n];
    }
  }

  /** Every step that a job makes brings the end nearer, so jobs that each settle settle all. */
  lemma StepsSettle(w: World, a: Action)
    requires !a.Call? && Step(w, a) != w
    ensures Left(Step(w, a).jobs) < Left(w.jobs)
  {
    LeftAfterPut(w.jobs, a.job, Step(w, a).jobs[a.job]);
  }

  /** A job that can make its next step, whatever failed before. */
  lemma {:induction false} SomeJobCanMove(w: World, n: nat) returns (a: Action)
    requires Chained(w) && n <= |w.jobs|
    requires forall i :: 0 <= i < |w.jobs| - n ==> w.jobs[i].stage.Settled?
    requires Left(w.jobs) > 0
    ensures !a.Call? && Step(w, a) != w
    decreases n
  {
    var j := |w.jobs| - n;
    a := Call(Dark);
    if n == 0 {
      AllSettled(w.jobs);
    } else {
      match w.jobs[j].stage
      case Waiting => a := Start(j); assert Step(w, a).jobs[j].stage == Importing;
      case Importing => a := ImportFails(j); assert Step(w, a).jobs[j].stage == Settled(false);
      case Rendering(_) => a := RenderSettles(j, true); assert Step(w, a).jobs[j].stage == Settled(true);
      case Settled(_) => a := SomeJobCanMove(w, n - 1);
    }
  }

  lemma {:induction false} AllSettled(jobs: seq<Job>)
    requires forall i :: 0 <= i < |jobs| ==> jobs[i].stage.Settled?
    ensures Left(jobs) == 0
  {
    if jobs != [] {
      AllSettled(jobs[..|jobs| - 1]);
    }
  }

  /** No reachable state is stuck: while a call is unsettled, some job can make a step. */
  lemma NeverStuck(actions: seq<Action>) returns (a: Action)
    requires Left(Run(START, actions).jobs) > 0
    ensures !a.Call? && Step(Run(START, actions), a) != Run(START, actions)
    ensures Left(Step(Run(START, actions), a).jobs) < Left(Run(START, actions).jobs)
  {
    RunKeepsInv(actions);
    a := SomeJobCanMove(Run(START, actions), |Run(START, actions).jobs|);
    StepsSettle(Run(START, actions), a);
  }

  /** A call settles with what became of its own import and render, once and for good. */
  lemma SettledIff(w: World, a: Action, j: nat, rendered: bool)
    requires j < |w.jobs|
    ensures Step(w, a).jobs[j].stage == Settled(rendered) <==>
      || w.jobs[j].stage == Settled(rendered)
      || (a == RenderSettles(j, rendered) && w.jobs[j].stage.Rendering?)
      || (a == ImportFails(j) && w.jobs[j].stage.Importing? && !rendered)
    ensures Step(w, a).jobs[j].theme == w.jobs[j].theme
  {
  }

  lemma {:induction false} RendersAreCounted(actions: seq<Action>)
    ensures var w := Run(START, actions);
      w.nextDiagramId == |w.rendered| && forall k :: 0 <= k < |w.rendered| ==> w.rendered[k].1 == k + 1
  {
    if actions != [] {
      RendersAreCounted(actions[..|actions| - 1]);
    }
  }

  /** Exactly the calls whose import succeeded are handed to `render`, one after the other. */
  lemma RenderedIff(w: World, a: Action)
    ensures Step(w, a).rendered ==
      if a.Imported? && a.job < |w.jobs| && w.jobs[a.job].stage.Importing? then w.rendered + [(a.job, w.nextDiagramId + 1)] else w.rendered
  {
  }
}
