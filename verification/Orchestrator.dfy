/** The orchestrator: worker selection under the secret-level access list, and the
    bounded thinker, worker, verifier, synthesizer workflow over calls that may fail. */
module Orchestrator {
  import opened Options

  /** `strength` 0 stands for the default 0.5; `secretMax` 0 or less for unlimited. */
  datatype Worker = Worker(id: string, model: string, tasks: seq<string>, strength: real, cost: real, secretMax: int)

  /** `fold` is the case folding used to compare task names. An empty conductor model means there is none. */
  datatype Config = Config(
    workers: seq<Worker>, maxSteps: int, costPenalty: real, confidenceThreshold: real, conductorModel: string,
    fold: string -> string)

  datatype Usage = Usage(prompt: int, completion: int, total: int, reasoning: int)
  datatype Message = Message(role: string, content: string)
  datatype Block = Block(tag: string, text: string)
  datatype Params = Params(temperature: Option<real>, topP: Option<real>, maxTokens: Option<int>)
  datatype Class = Class(task: string, confidence: real)

  datatype Role = Thinker | Solver | Verifier | Synthesizer | Route

  /** One worker call and what may come back. */
  datatype Call = Call(role: Role, worker: Worker, messages: seq<Message>, params: Params)
  datatype Reply = Reply(text: string, usage: Usage, backend: string, latency: int)

  /** The environment: what the n-th call of a request returns. */
  type Replies = (nat, Call) -> Option<Reply>

  datatype StepInfo = StepInfo(step: nat, role: Role, workerID: string, model: string, backend: string, latency: int)
  datatype Result = Result(content: string, usage: Usage, steps: seq<StepInfo>)

  const NO_USAGE := Usage(0, 0, 0, 0)
  const FLOOR: real := -1000000000000000000.0

  // The four role prompts stand for fixed texts.
  const THINKER_PROMPT: string := "thinker"
  const WORKER_PROMPT: string := "worker"
  const VERIFIER_PROMPT: string := "verifier"
  const SYNTHESIZER_PROMPT: string := "synthesizer"

  // ----- Selection -----

  function Strength(w: Worker): real { if w.strength == 0.0 then 0.5 else w.strength }

  predicate Declares(cfg: Config, w: Worker, task: string) {
    exists i :: 0 <= i < |w.tasks| && cfg.fold(w.tasks[i]) == cfg.fold(task)
  }

  function TaskScore(cfg: Config, task: string): Worker -> real {
    (w: Worker) => Strength(w) - cfg.costPenalty * w.cost + (if Declares(cfg, w, task) then 1.0 else 0.0)
  }

  function VerifyScore(cfg: Config): Worker -> real {
    (w: Worker) => Strength(w) + (if Declares(cfg, w, "verify") then 1.0 else 0.0)
  }

  /** A negative level never widens access. */
  predicate Admits(w: Worker, level: int) {
    w.secretMax > 0 ==> (if level < 0 then 0 else level) <= w.secretMax
  }

  /** The workers that admit the level, in pool order. */
  function Eligible(workers: seq<Worker>, level: int): seq<Worker> {
    if workers == [] then []
    else
      var n := |workers| - 1;
      Eligible(workers[..n], level) + (if Admits(workers[n], level) then [workers[n]] else [])
  }

  lemma {:induction false} EligibleExactly(workers: seq<Worker>, level: int)
    ensures forall w :: w in Eligible(workers, level) <==> w in workers && Admits(w, level)
    decreases |workers|
  {
    if workers != [] {
      var n := |workers| - 1;
      EligibleExactly(workers[..n], level);
      assert workers == workers[..n] + [workers[n]];
    }
  }

  method EligibleWorkers(cfg: Config, secretLevel: int) returns (out: seq<Worker>)
    ensures out == Eligible(cfg.workers, secretLevel)
    ensures forall w :: w in out <==> w in cfg.workers && (w.secretMax <= 0 || secretLevel <= w.secretMax)
  {
    var level := if secretLevel < 0 then 0 else secretLevel;
    out := [];
    for i := 0 to |cfg.workers|
      invariant out == Eligible(cfg.workers[..i], secretLevel)
    {
      var w := cfg.workers[i];
      assert cfg.workers[..i + 1][..i] == cfg.workers[..i];
      if w.secretMax > 0 && level > w.secretMax { continue; }
      out := out + [w];
    }
    assert cfg.workers[..|cfg.workers|] == cfg.workers;
    EligibleExactly(cfg.workers, secretLevel);
  }

  /** `best` is the first of the highest scores above the floor among the workers not excluded. */
  ghost predicate IsBest(ws: seq<Worker>, excluded: Option<string>, score: Worker -> real, best: Option<Worker>) {
    match best
    case None => forall i :: 0 <= i < |ws| && excluded != Some(ws[i].id) ==> score(ws[i]) <= FLOOR
    case Some(w) =>
      exists k :: 0 <= k < |ws| && ws[k] == w && excluded != Some(w.id) && score(w) > FLOOR
                  && forall i :: 0 <= i < |ws| && excluded != Some(ws[i].id) ==>
                      score(ws[i]) <= score(w) && (i < k ==> score(ws[i]) < score(w))
  }

  /** The selection loop shared by the three selectors. */
  method PickBest(ws: seq<Worker>, excluded: Option<string>, score: Worker -> real) returns (best: Option<Worker>)
    ensures IsBest(ws, excluded, score, best)
  {
    best := None;
    var bestScore := FLOOR;
    ghost var at := 0;
    for i := 0 to |ws|
      invariant bestScore >= FLOOR && (best.None? ==> bestScore == FLOOR)
      invariant forall j :: 0 <= j < i && excluded != Some(ws[j].id) ==> score(ws[j]) <= bestScore
      invariant best.Some? ==>
          0 <= at < i && ws[at] == best.value && excluded != Some(ws[at].id) && score(ws[at]) == bestScore > FLOOR
      invariant best.Some? ==> forall j :: 0 <= j < at && excluded != Some(ws[j].id) ==> score(ws[j]) < bestScore
    {
      if excluded == Some(ws[i].id) { continue; }
      if score(ws[i]) > bestScore {
        bestScore, best, at := score(ws[i]), Some(ws[i]), i;
      }
    }
    if best.Some? { assert ws[at] == best.value; }
  }

  /** Strengths above the floor, so a strongest worker exists in any non-empty pool. */
  ghost predicate Sound(ws: seq<Worker>) {
    ws != [] && forall i :: 0 <= i < |ws| ==> Strength(ws[i]) > FLOOR
  }

  /** `w` is the best worker for the task, or the strongest if no score is above the floor. */
  ghost predicate Solves(cfg: Config, task: string, eligible: seq<Worker>, w: Worker) {
    var score := TaskScore(cfg, task);
    IsBest(eligible, None, score, Some(w)) ||
        (IsBest(eligible, None, score, None) && IsBest(eligible, None, Strength, Some(w)))
  }

  method SelectSolver(cfg: Config, task: string, eligible: seq<Worker>) returns (w: Worker)
    requires Sound(eligible)
    ensures w in eligible && Solves(cfg, task, eligible, w)
  {
    var best := PickBest(eligible, None, TaskScore(cfg, task));
    if best.None? {
      best := PickBest(eligible, None, Strength);
      assert best.Some? by { assert Strength(eligible[0]) > FLOOR; }
    }
    w := best.value;
  }

  /** `w` is the best worker for reasoning, or the solver if no score is above the floor. */
  ghost predicate Thinks(cfg: Config, eligible: seq<Worker>, solver: Worker, w: Worker) {
    var score := TaskScore(cfg, "reasoning");
    IsBest(eligible, None, score, Some(w)) || (IsBest(eligible, None, score, None) && w == solver)
  }

  method SelectThinker(cfg: Config, eligible: seq<Worker>, solver: Worker) returns (w: Worker)
    ensures Thinks(cfg, eligible, solver, w)
  {
    var best := PickBest(eligible, None, TaskScore(cfg, "reasoning"));
    w := if best.Some? then best.value else solver;
  }

  /** `w` has another id than the producer exactly when there is one to choose from, and is then the best of those for
      verifying. */
  ghost predicate Verifies(cfg: Config, eligible: seq<Worker>, producer: Worker, w: Worker) {
    && (w.id != producer.id <==> exists i :: 0 <= i < |eligible| && eligible[i].id != producer.id)
    && (if w.id != producer.id then IsBest(eligible, Some(producer.id), VerifyScore(cfg), Some(w)) else w == producer)
  }

  method SelectVerifier(cfg: Config, producer: Worker, eligible: seq<Worker>) returns (w: Worker)
    requires Sound(eligible)
    ensures Verifies(cfg, eligible, producer, w)
  {
    var best := PickBest(eligible, Some(producer.id), VerifyScore(cfg));
    if best.Some? { return best.value; }
    forall i | 0 <= i < |eligible| ensures eligible[i].id == producer.id {
      assert Strength(eligible[i]) > FLOOR;
    }
    return producer;
  }

  /** By how much `w` outdoes `v`: in strength, where none given is a half, less the price of its cost, and with one
      point for declaring the task. */
  function Lead(cfg: Config, task: string, penalty: real, w: Worker, v: Worker): real {
    (if w.strength == 0.0 then 0.5 else w.strength) - (if v.strength == 0.0 then 0.5 else v.strength)
    - penalty * (w.cost - v.cost)
    + (if Declares(cfg, w, task) == Declares(cfg, v, task) then 0.0 else if Declares(cfg, w, task) then 1.0 else -1.0)
  }

  /** No eligible worker outdoes the chosen solver, nor any worker with another id the chosen verifier. */
  lemma ChosenAreBest(cfg: Config, task: string, eligible: seq<Worker>, w: Worker, v: Worker)
    requires v in eligible
    ensures IsBest(eligible, None, TaskScore(cfg, task), Some(w)) ==> Lead(cfg, task, cfg.costPenalty, w, v) >= 0.0
    ensures forall producer :: v.id != producer && IsBest(eligible, Some(producer), VerifyScore(cfg), Some(w)) ==>
              Lead(cfg, "verify", 0.0, w, v) >= 0.0
  {
    LeadIsScore(cfg, task, w, v);
    var i :| 0 <= i < |eligible| && eligible[i] == v;
  }

  lemma LeadIsScore(cfg: Config, task: string, w: Worker, v: Worker)
    ensures Lead(cfg, task, cfg.costPenalty, w, v) == TaskScore(cfg, task)(w) - TaskScore(cfg, task)(v)
    ensures Lead(cfg, "verify", 0.0, w, v) == VerifyScore(cfg)(w) - VerifyScore(cfg)(v)
  {
    assert cfg.costPenalty * (w.cost - v.cost) == cfg.costPenalty * w.cost - cfg.costPenalty * v.cost;
  }

  // ----- Messages -----

  function Render(prompt: string, blocks: seq<Block>): string {
    if blocks == [] then prompt
    else
      var b := blocks[|blocks| - 1];
      Render(prompt, blocks[..|blocks| - 1]) + "\n\n--- " + b.tag + " ---\n" + b.text
  }

  /** A block under its tag. */
  function Section(b: Block): string { "\n\n--- " + b.tag + " ---\n" + b.text }

  function Sections(blocks: seq<Block>): string {
    if blocks == [] then "" else Section(blocks[0]) + Sections(blocks[1..])
  }

  lemma {:induction false} SectionsSnoc(blocks: seq<Block>, b: Block)
    ensures Sections(blocks + [b]) == Sections(blocks) + Section(b)
    decreases |blocks|
  {
    var longer := blocks + [b];
    if blocks == [] {
      assert longer[1..] == [];
    } else {
      assert longer[1..] == blocks[1..] + [b];
      SectionsSnoc(blocks[1..], b);
    }
  }

  lemma {:induction false} RenderLast(prompt: string, blocks: seq<Block>)
    requires blocks != []
    ensures Render(prompt, blocks) == Render(prompt, blocks[..|blocks| - 1]) + Section(blocks[|blocks| - 1])
  {
    var front, b := Render(prompt, blocks[..|blocks| - 1]), blocks[|blocks| - 1];
    assert front + "\n\n--- " + b.tag + " ---\n" + b.text == front + ("\n\n--- " + b.tag + " ---\n" + b.text);
  }

  /** A prompt shows its blocks in order, whole and under their tags. */
  lemma {:induction false} PromptShowsBlocks(prompt: string, blocks: seq<Block>)
    ensures Render(prompt, blocks) == prompt + Sections(blocks)
    decreases |blocks|
  {
    if blocks != [] {
      var n := |blocks| - 1;
      PromptShowsBlocks(prompt, blocks[..n]);
      RenderLast(prompt, blocks);
      SectionsSnoc(blocks[..n], blocks[n]);
      assert blocks[..n] + [blocks[n]] == blocks;
      assert prompt + Sections(blocks[..n]) + Section(blocks[n]) == prompt +
          (Sections(blocks[..n]) + Section(blocks[n]));
    }
  }

  function StepMessages(prompt: string, base: seq<Message>, blocks: seq<Block>): seq<Message> {
    [Message("system", Render(prompt, blocks))] + base
  }

  method BuildStepMessages(prompt: string, base: seq<Message>, blocks: seq<Block>) returns (out: seq<Message>)
    ensures out == StepMessages(prompt, base, blocks)
  {
    var sys := prompt;
    for i := 0 to |blocks|
      invariant sys == Render(prompt, blocks[..i])
    {
      assert blocks[..i + 1][..i] == blocks[..i];
      sys := sys + "\n\n--- " + blocks[i].tag + " ---\n" + blocks[i].text;
    }
    assert blocks[..|blocks|] == blocks;
    out := [Message("system", sys)] + base;
  }

  /** A token cap below 512 is dropped, everything else is kept. */
  function PlannerParams(p: Params): (out: Params)
    ensures out.temperature == p.temperature && out.topP == p.topP
    ensures out.maxTokens.Some? ==> out.maxTokens == p.maxTokens && out.maxTokens.value >= 512
    ensures p.maxTokens.None? || p.maxTokens.value >= 512 ==> out == p
  {
    if p.maxTokens.Some? && p.maxTokens.value < 512 then p.(maxTokens := None) else p
  }

  // ----- What a workflow run must look like -----

  function Budget(cfg: Config): nat { if cfg.maxSteps <= 0 then 5 else cfg.maxSteps }

  /** The stages a budget pays for, in order. */
  function Planned(budget: nat): seq<Role> {
    if budget >= 4 then [Thinker, Solver, Verifier, Synthesizer]
    else if budget == 3 then [Solver, Verifier, Synthesizer]
    else if budget == 2 then [Thinker, Solver]
    else [Solver]
  }

  function Roles(calls: seq<Call>): seq<Role> { seq(|calls|, i requires 0 <= i < |calls| => calls[i].role) }

  function Rank(r: Role): nat {
    match r case Thinker => 0 case Solver => 1 case Verifier => 2 case Synthesizer => 3 case Route => 4
  }

  /** Whatever the stages reached, they are at most the budget, and each comes at most once, in order. */
  lemma {:induction false} PlannedFits(budget: nat, done: seq<Role>)
    requires budget > 0 && done <= Planned(budget)
    ensures |done| <= budget && |done| <= 4
    ensures forall i, j :: 0 <= i < j < |done| ==> Rank(done[i]) < Rank(done[j])
  {
    assert forall i :: 0 <= i < |done| ==> done[i] == Planned(budget)[i];
  }

  /** A workflow has a solver, its reviewers come together, and stages come in order. */
  predicate Workflow(roles: seq<Role>) {
    && Solver in roles && Route !in roles && (Verifier in roles <==> Synthesizer in roles)
    && forall i, j :: 0 <= i < j < |roles| ==> Rank(roles[i]) < Rank(roles[j])
  }

  /** A budget pays for the longest workflow it can, and no other workflow has that length. */
  lemma {:induction false} PlannedIsLongest(budget: nat, other: seq<Role>)
    requires budget > 0 && Workflow(other) && |other| <= budget
    ensures Workflow(Planned(budget)) && |Planned(budget)| <= budget
    ensures |other| <= |Planned(budget)| && (|other| == |Planned(budget)| ==> other == Planned(budget))
  {
    WorkflowIsPlanned(other);
    assert Planned(budget)[|Planned(budget)| - 1] in Planned(budget);
  }

  lemma {:induction false} WorkflowIsPlanned(roles: seq<Role>)
    requires Workflow(roles)
    ensures 1 <= |roles| <= 4 && roles == Planned(|roles|)
  {
    forall i | 0 <= i < |roles| ensures roles[i] in roles && i <= Rank(roles[i]) <= 3 { RankAtLeast(roles, i); }
    assert |roles| <= 4 by { assert |roles| - 1 <= Rank(roles[|roles| - 1]); }
    if Verifier in roles { ReviewedIsPlanned(roles); } else { UnreviewedIsPlanned(roles); }
  }

  lemma {:induction false} ReviewedIsPlanned(roles: seq<Role>)
    requires Solver in roles && Verifier in roles && Synthesizer in roles && |roles| <= 4
    requires forall i :: 0 <= i < |roles| ==> i <= Rank(roles[i]) <= 3
    requires forall i, j :: 0 <= i < j < |roles| ==> Rank(roles[i]) < Rank(roles[j])
    ensures |roles| >= 3 && roles == Planned(|roles|)
  {
    var s :| 0 <= s < |roles| && roles[s] == Solver;
    var v :| 0 <= v < |roles| && roles[v] == Verifier;
    var y :| 0 <= y < |roles| && roles[y] == Synthesizer;
    assert s < v < y;
    if |roles| == 3 { assert roles == [roles[0], roles[1], roles[2]]; }
    if |roles| == 4 { assert roles == [roles[0], roles[1], roles[2], roles[3]]; }
  }

  lemma {:induction false} UnreviewedIsPlanned(roles: seq<Role>)
    requires Solver in roles && Verifier !in roles && Synthesizer !in roles
    requires forall i :: 0 <= i < |roles| ==> roles[i] in roles && i <= Rank(roles[i]) <= 3
    requires forall i, j :: 0 <= i < j < |roles| ==> Rank(roles[i]) < Rank(roles[j])
    ensures |roles| in {1, 2} && roles == Planned(|roles|)
  {
    assert forall i :: 0 <= i < |roles| ==> Rank(roles[i]) <= 1;
    assert |roles| <= 2 by { assert |roles| - 1 <= Rank(roles[|roles| - 1]); }
    if |roles| == 1 { assert roles == [roles[0]]; }
    if |roles| == 2 { assert roles == [roles[0], roles[1]]; }
  }

  lemma {:induction false} RankAtLeast(roles: seq<Role>, i: nat)
    requires Workflow(roles) && i < |roles|
    ensures Rank(roles[i]) >= i
    decreases i
  {
    if i > 0 { RankAtLeast(roles, i - 1); }
  }

  function Answered(replies: Replies, calls: seq<Call>, i: nat): Option<Reply>
    requires i < |calls|
  {
    replies(i, calls[i])
  }

  function Plus(a: Usage, b: Usage): Usage {
    Usage(a.prompt + b.prompt, a.completion + b.completion, a.total + b.total, a.reasoning + b.reasoning)
  }

  /** The usage of the calls that were answered. */
  function SpentOn(replies: Replies, calls: seq<Call>): Usage {
    if calls == [] then NO_USAGE
    else
      var n := |calls| - 1;
      var r := replies(n, calls[n]);
      Plus(SpentOn(replies, calls[..n]), if r.Some? then r.value.usage else NO_USAGE)
  }

  /** The trace of the calls that were answered, numbered from one. */
  function TraceOf(replies: Replies, calls: seq<Call>): seq<StepInfo> {
    if calls == [] then []
    else
      var n := |calls| - 1;
      var before, c, r := TraceOf(replies, calls[..n]), calls[n], replies(n, calls[n]);
      if r.None? then before
      else before + [StepInfo(|before| + 1, c.role, c.worker.id, c.worker.model, r.value.backend, r.value.latency)]
  }

  predicate Charged(replies: Replies, calls: seq<Call>, res: Result) {
    res.usage == SpentOn(replies, calls) && res.steps == TraceOf(replies, calls)
  }

  lemma {:induction false} ChargedSnoc(replies: Replies, calls: seq<Call>, c: Call, res: Result, res': Result)
    requires Charged(replies, calls, res)
    requires match replies(|calls|, c)
             case None => res'.usage == res.usage && res'.steps == res.steps
             case Some(r) =>
               && res'.usage == Plus(res.usage, r.usage)
               && res'.steps == res.steps +
                   [StepInfo(|res.steps| + 1, c.role, c.worker.id, c.worker.model, r.backend, r.latency)]
    ensures Charged(replies, calls + [c], res')
  {
    assert (calls + [c])[..|calls|] == calls;
  }

  /** What `f` of the usage adds up to over the answered calls. */
  function FieldSum(replies: Replies, calls: seq<Call>, f: Usage -> int): int {
    if calls == [] then 0
    else
      var n := |calls| - 1;
      var r := replies(n, calls[n]);
      FieldSum(replies, calls[..n], f) + (if r.Some? then f(r.value.usage) else 0)
  }

  /** Every field of the usage is the sum of that field over the answered calls. */
  predicate Billed(replies: Replies, calls: seq<Call>, usage: Usage) {
    && usage.prompt == FieldSum(replies, calls, (u: Usage) => u.prompt)
    && usage.completion == FieldSum(replies, calls, (u: Usage) => u.completion)
    && usage.total == FieldSum(replies, calls, (u: Usage) => u.total)
    && usage.reasoning == FieldSum(replies, calls, (u: Usage) => u.reasoning)
  }

  lemma {:induction false} SpentIsBilled(replies: Replies, calls: seq<Call>)
    ensures Billed(replies, calls, SpentOn(replies, calls))
    decreases |calls|
  {
    if calls != [] { SpentIsBilled(replies, calls[..|calls| - 1]); }
  }

  /** The recorded steps are the answered calls, one step each and in order, with the worker that was called and the
      backend that answered. */
  lemma {:induction false} TraceExactly(replies: Replies, calls: seq<Call>) returns (at: seq<nat>)
    ensures Increasing(at) && forall k: nat :: k in at <==> k < |calls| && replies(k, calls[k]).Some?
    ensures Traces(replies, calls, TraceOf(replies, calls), at)
    decreases |calls|
  {
    at := [];
    if calls != [] {
      var n := |calls| - 1;
      var before := TraceExactly(replies, calls[..n]);
      assert forall k: nat :: k < n ==> calls[..n][k] == calls[k];
      assert calls == calls[..n] + [calls[n]];
      TracesSnoc(replies, calls[..n], calls[n], TraceOf(replies, calls[..n]), before);
      at := before + (if replies(n, calls[n]).Some? then [n] else []);
      assert forall k: nat :: k in at <==> k in before || (k == n && replies(n, calls[n]).Some?);
      forall i | 0 <= i < |before| ensures before[i] < n { assert before[i] in before; }
      assert replies(n, calls[n]).None? ==> at == before;
    }
  }

  predicate Increasing(at: seq<nat>) { forall i, j :: 0 <= i < j < |at| ==> at[i] < at[j] }

  /** Step `i` records the call `at[i]`. */
  predicate Traces(replies: Replies, calls: seq<Call>, steps: seq<StepInfo>, at: seq<nat>) {
    |at| == |steps| && forall i :: 0 <= i < |at| ==>
      at[i] < |calls| && StepFor(steps[i], i + 1, calls[at[i]], replies(at[i], calls[at[i]]))
  }

  lemma {:induction false} TracesSnoc(replies: Replies, calls: seq<Call>, c: Call, steps: seq<StepInfo>, at: seq<nat>)
    requires Traces(replies, calls, steps, at)
    ensures Traces(replies, calls + [c], steps, at)
    ensures forall s :: StepFor(s, |steps| + 1, c, replies(|calls|, c)) ==>
              Traces(replies, calls + [c], steps + [s], at + [|calls|])
  {
    var longer := calls + [c];
    assert forall k: nat :: k < |calls| ==> longer[k] == calls[k];
  }

  predicate StepFor(s: StepInfo, number: int, c: Call, r: Option<Reply>) {
    && s.step == number && s.role == c.role && s.workerID == c.worker.id && s.model == c.worker.model
    && r.Some? && s.backend == r.value.backend && s.latency == r.value.latency
  }

  lemma {:induction false} StepsNumbered(replies: Replies, calls: seq<Call>)
    ensures forall i :: 0 <= i < |TraceOf(replies, calls)| ==> TraceOf(replies, calls)[i].step == i + 1
    ensures |TraceOf(replies, calls)| <= |calls|
    decreases |calls|
  {
    if calls != [] { StepsNumbered(replies, calls[..|calls| - 1]); }
  }

  ghost predicate Ordered(steps: seq<StepInfo>) {
    forall i, j :: 0 <= i < j < |steps| ==> Rank(steps[i].role) < Rank(steps[j].role)
  }

  /** If the calls come in strictly growing rank, so do the recorded steps. */
  lemma {:induction false} TraceOrdered(replies: Replies, calls: seq<Call>)
    requires forall i, j :: 0 <= i < j < |calls| ==> Rank(calls[i].role) < Rank(calls[j].role)
    ensures Ordered(TraceOf(replies, calls))
    ensures forall s :: s in TraceOf(replies, calls) ==> exists i :: 0 <= i < |calls| && s.role == calls[i].role
    decreases |calls|
  {
    if calls != [] {
      var n := |calls| - 1;
      TraceOrdered(replies, calls[..n]);
      var before := TraceOf(replies, calls[..n]);
      forall s | s in before
        ensures Rank(s.role) < Rank(calls[n].role) && exists i :: 0 <= i < n && s.role == calls[i].role
      {
        var i :| 0 <= i < |calls[..n]| && s.role == calls[..n][i].role;
        assert calls[i].role == s.role;
      }
    }
  }

  /** The texts produced so far; empty where a stage has not run or got no answer. */
  datatype Texts = Texts(plan: string, draft: string, critique: string, synthesis: string)

  function Note(t: Texts, role: Role, text: string): Texts {
    match role
    case Thinker => t.(plan := text)
    case Solver => t.(draft := text)
    case Verifier => t.(critique := text)
    case Synthesizer => t.(synthesis := text)
    case Route => t
  }

  function TextIn(reply: Option<Reply>): string { if reply.Some? then reply.value.text else "" }

  function Said(replies: Replies, calls: seq<Call>): Texts {
    if calls == [] then Texts("", "", "", "")
    else
      var n := |calls| - 1;
      Note(Said(replies, calls[..n]), calls[n].role, TextIn(replies(n, calls[n])))
  }

  /** What the solver is shown of the plan. */
  function PlanBlocks(plan: string): seq<Block> { if plan != "" then [Block("DECOMPOSITION / PLAN", plan)] else [] }

  /** The access list: what a call of each role is shown of the texts so far. The verifier is not shown the plan. */
  predicate SeesOnly(c: Call, base: seq<Message>, t: Texts) {
    match c.role
    case Thinker => c.messages == StepMessages(THINKER_PROMPT, base, [])
    case Solver => c.messages == StepMessages(WORKER_PROMPT, base, PlanBlocks(t.plan))
    case Verifier => c.messages == StepMessages(VERIFIER_PROMPT, base, [Block("CANDIDATE ANSWER TO REVIEW", t.draft)])
    case Synthesizer =>
      c.messages ==
          StepMessages(SYNTHESIZER_PROMPT, base,
              [Block("DRAFT ANSWER", t.draft), Block("REVIEWER FEEDBACK", t.critique)])
    case Route => c.messages == base
  }

  /** Nobody's prompt depends on what they may not see: the thinker's on nothing, the solver's on the plan alone, the
      verifier's on the draft alone, the synthesizer's on the draft and the critique. */
  lemma {:induction false} AccessIsLimited(c: Call, base: seq<Message>, t: Texts, t': Texts)
    requires SeesOnly(c, base, t)
    requires match c.role
             case Thinker => true
             case Solver => t'.plan == t.plan
             case Verifier => t'.draft == t.draft
             case Synthesizer => t'.draft == t.draft && t'.critique == t.critique
             case Route => true
    ensures SeesOnly(c, base, t')
  {
  }

  ghost predicate AccessListed(replies: Replies, calls: seq<Call>, base: seq<Message>) {
    forall i :: 0 <= i < |calls| ==> SeesOnly(calls[i], base, Said(replies, calls[..i]))
  }

  lemma {:induction false} AccessListedSnoc(replies: Replies, calls: seq<Call>, c: Call, base: seq<Message>)
    requires AccessListed(replies, calls, base) && SeesOnly(c, base, Said(replies, calls))
    ensures AccessListed(replies, calls + [c], base)
  {
    var longer := calls + [c];
    forall i | 0 <= i < |longer| ensures SeesOnly(longer[i], base, Said(replies, longer[..i])) {
      assert longer[..i] == if i < |calls| then calls[..i] else calls;
    }
  }

  /** One workflow run: what it was asked, the pool it may use and the solver it picked. */
  datatype Job = Job(cfg: Config, base: seq<Message>, params: Params, eligible: seq<Worker>, task: string,
      solver: Worker)

  /** Who makes the call of each role, and with which parameters. The draft and the synthesis come from the same
      worker. */
  ghost predicate Staffed(job: Job, c: Call) {
    match c.role
    case Thinker => Thinks(job.cfg, job.eligible, job.solver, c.worker) && c.params == PlannerParams(job.params)
    case Solver => c.worker == job.solver && c.params == job.params
    case Verifier => Verifies(job.cfg, job.eligible, job.solver, c.worker) && c.params == PlannerParams(job.params)
    case Synthesizer => c.worker == job.solver && c.params == job.params
    case Route => false
  }

  /** Everything that is true after every call of a run. */
  ghost predicate RunInv(replies: Replies, calls: seq<Call>, res: Result, job: Job) {
    && Charged(replies, calls, res)
    && AccessListed(replies, calls, job.base)
    && forall i :: 0 <= i < |calls| ==> Staffed(job, calls[i])
  }

  lemma {:induction false} OnlyEligible(job: Job, c: Call)
    requires Staffed(job, c) && job.solver in job.eligible
    ensures c.worker in job.eligible
  {
  }

  /** Makes one call and records it if it was answered. */
  method Step(replies: Replies, calls: seq<Call>, res: Result, c: Call, ghost job: Job)
    returns (calls': seq<Call>, res': Result, reply: Option<Reply>)
    requires RunInv(replies, calls, res, job) && Staffed(job, c) && SeesOnly(c, job.base, Said(replies, calls))
    ensures calls' == calls + [c] && reply == replies(|calls|, c)
    ensures RunInv(replies, calls', res', job)
    ensures res'.content == res.content
    ensures Said(replies, calls') == Note(Said(replies, calls), c.role, TextIn(reply))
    ensures Roles(calls') == Roles(calls) + [c.role]
  {
    reply := replies(|calls|, c);
    calls' := calls + [c];
    assert calls'[..|calls|] == calls;
    if reply.Some? {
      var info :=
          StepInfo(|res.steps| + 1, c.role, c.worker.id, c.worker.model, reply.value.backend, reply.value.latency);
      res' := Result(res.content, Plus(res.usage, reply.value.usage), res.steps + [info]);
    } else {
      res' := res;
    }
    ChargedSnoc(replies, calls, c, res, res');
    AccessListedSnoc(replies, calls, c, job.base);
  }

  function Last(calls: seq<Call>): Call
    requires calls != []
  {
    calls[|calls| - 1]
  }

  function LastReply(replies: Replies, calls: seq<Call>): Option<Reply>
    requires calls != []
  {
    replies(|calls| - 1, Last(calls))
  }

  /** The run ended because a mandatory call, the thinker's or the solver's, got no answer. */
  predicate Broke(replies: Replies, calls: seq<Call>) {
    calls != [] && (Last(calls).role.Thinker? || Last(calls).role.Solver?) && LastReply(replies, calls).None?
  }

  /** The synthesizer's answer if there is one, else the draft. */
  function Answer(replies: Replies, calls: seq<Call>): string {
    if calls != [] && Last(calls).role.Synthesizer? && LastReply(replies, calls).Some?
    then Said(replies, calls).synthesis
    else Said(replies, calls).draft
  }

  /** The verifier was the last to be called and had nothing to say. */
  predicate NoCritique(replies: Replies, calls: seq<Call>) {
    calls != [] && Last(calls).role.Verifier? && TextIn(LastReply(replies, calls)) == ""
  }

  lemma {:induction false} EmptyRun(replies: Replies, job: Job)
    ensures RunInv(replies, [], Result("", NO_USAGE, []), job)
    ensures Roles([]) == [] && Said(replies, []) == Texts("", "", "", "")
  {
  }

  /** The thinker stage. */
  method Think(job: Job, replies: Replies) returns (calls: seq<Call>, res: Result, plan: Option<string>)
    ensures RunInv(replies, calls, res, job)
    ensures Roles(calls) == [Thinker]
    ensures plan.None? <==> Broke(replies, calls)
    ensures plan.Some? ==> Said(replies, calls).plan == plan.value
  {
    var thinker := SelectThinker(job.cfg, job.eligible, job.solver);
    var msgs := BuildStepMessages(THINKER_PROMPT, job.base, []);
    var c, reply := Call(Thinker, thinker, msgs, PlannerParams(job.params)), None;
    EmptyRun(replies, job);
    calls, res, reply := Step(replies, [], Result("", NO_USAGE, []), c, job);
    plan := if reply.Some? then Some(reply.value.text) else None;
  }

  /** The solver stage, shown the plan if there is one. */
  method Draft(job: Job, plan: string, replies: Replies, calls0: seq<Call>, res0: Result)
    returns (calls: seq<Call>, res: Result, draft: Option<string>)
    requires RunInv(replies, calls0, res0, job) && Said(replies, calls0).plan == plan
    ensures RunInv(replies, calls, res, job)
    ensures Roles(calls) == Roles(calls0) + [Solver] && calls != [] && Last(calls).role.Solver?
    ensures draft.None? <==> Broke(replies, calls)
    ensures draft.Some? ==> Said(replies, calls).draft == draft.value == Answer(replies, calls)
  {
    var msgs := BuildStepMessages(WORKER_PROMPT, job.base, PlanBlocks(plan));
    var c, reply := Call(Solver, job.solver, msgs, job.params), None;
    calls, res, reply := Step(replies, calls0, res0, c, job);
    draft := if reply.Some? then Some(reply.value.text) else None;
  }

  /** The verifier stage; without an answer the critique is empty. */
  method Review(job: Job, draft: string, replies: Replies, calls0: seq<Call>, res0: Result)
    returns (calls: seq<Call>, res: Result, critique: string)
    requires Sound(job.eligible) && RunInv(replies, calls0, res0, job) && Said(replies, calls0).draft == draft
    ensures RunInv(replies, calls, res, job)
    ensures Roles(calls) == Roles(calls0) + [Verifier] && calls != [] && Last(calls).role.Verifier?
    ensures Said(replies, calls).draft == draft &&
        Said(replies, calls).critique == critique == TextIn(LastReply(replies, calls))
  {
    var verifier := SelectVerifier(job.cfg, job.solver, job.eligible);
    var msgs := BuildStepMessages(VERIFIER_PROMPT, job.base, [Block("CANDIDATE ANSWER TO REVIEW", draft)]);
    var v, reply := Call(Verifier, verifier, msgs, PlannerParams(job.params)), None;
    calls, res, reply := Step(replies, calls0, res0, v, job);
    critique := TextIn(reply);
  }

  /** The synthesizer stage; without an answer the draft stands. */
  method Synthesize(job: Job, draft: string, critique: string, replies: Replies, calls0: seq<Call>, res0: Result)
    returns (calls: seq<Call>, res: Result)
    requires RunInv(replies, calls0, res0, job)
    requires Said(replies, calls0).draft == draft && Said(replies, calls0).critique == critique
    ensures RunInv(replies, calls, res, job)
    ensures Roles(calls) == Roles(calls0) + [Synthesizer] && calls != [] && Last(calls).role.Synthesizer?
    ensures res.content == Answer(replies, calls)
  {
    var msgs :=
        BuildStepMessages(SYNTHESIZER_PROMPT, job.base,
            [Block("DRAFT ANSWER", draft), Block("REVIEWER FEEDBACK", critique)]);
    var s, reply := Call(Synthesizer, job.solver, msgs, job.params), None;
    calls, res, reply := Step(replies, calls0, res0, s, job);
    res := res.(content := if reply.Some? then reply.value.text else draft);
  }

  /** The verifier and synthesizer share one gate, and neither can fail the run; the synthesizer is called
      exactly when there is a critique. */
  method ReviewAndSynthesize(job: Job, draft: string, replies: Replies, calls0: seq<Call>, res0: Result)
    returns (calls: seq<Call>, res: Result)
    requires Sound(job.eligible) && RunInv(replies, calls0, res0, job) && Said(replies, calls0).draft == draft
    ensures RunInv(replies, calls, res, job)
    ensures Roles(calls) == Roles(calls0) + [Verifier] + (if NoCritique(replies, calls) then [] else [Synthesizer])
    ensures !Broke(replies, calls) && res.content == Answer(replies, calls)
  {
    var critique;
    calls, res, critique := Review(job, draft, replies, calls0, res0);
    if critique != "" {
      calls, res := Synthesize(job, draft, critique, replies, calls, res);
    } else {
      res := res.(content := draft);
    }
  }

  /** A run of the planned stages, all of them unless a mandatory call failed (`failed`, the result then
      still carrying the usage so far) or there was no critique to work in. */
  ghost predicate Conducted(job: Job, replies: Replies, calls: seq<Call>, res: Result, failed: bool) {
    && Solves(job.cfg, job.task, job.eligible, job.solver) && job.solver in job.eligible
    && RunInv(replies, calls, res, job)
    && calls != [] && Roles(calls) <= Planned(Budget(job.cfg))
    && (Roles(calls) == Planned(Budget(job.cfg)) || Broke(replies, calls) || NoCritique(replies, calls))
    && (failed <==> Broke(replies, calls))
    && (!failed ==> res.content == Answer(replies, calls))
  }

  lemma {:induction false} StagesFit(budget: nat, first: seq<Role>)
    requires budget > 0 && first == if budget >= 4 || budget == 2 then [Thinker] else []
    ensures first <= Planned(budget) && first + [Solver] <= Planned(budget)
    ensures budget < 3 ==> first + [Solver] == Planned(budget)
    ensures budget >= 3 ==>
        first + [Solver] + [Verifier] + [] <= Planned(budget) == first + [Solver] + [Verifier] + [Synthesizer]
  {
  }

  method RunConductor(cfg: Config, base: seq<Message>, params: Params, eligible: seq<Worker>, task: string,
      replies: Replies)
    returns (res: Result, calls: seq<Call>, failed: bool, solver: Worker)
    requires Sound(eligible)
    ensures Conducted(Job(cfg, base, params, eligible, task, solver), replies, calls, res, failed)
    ensures Billed(replies, calls, res.usage)
  {
    var budget := Budget(cfg);
    var doSynth := budget >= 3;
    var doThinker := budget >= 4 || budget == 2;
    res, calls := Result("", NO_USAGE, []), [];
    solver := SelectSolver(cfg, task, eligible);
    var job := Job(cfg, base, params, eligible, task, solver);
    var plan := "";
    EmptyRun(replies, job);
    StagesFit(budget, if doThinker then [Thinker] else []);
    if doThinker {
      var thought;
      calls, res, thought := Think(job, replies);
      if thought.None? {
        SpentIsBilled(replies, calls);
        return res, calls, true, solver;
      }
      plan := thought.value;
    }
    var draft;
    calls, res, draft := Draft(job, plan, replies, calls, res);
    if draft.None? {
      SpentIsBilled(replies, calls);
      return res, calls, true, solver;
    }
    if doSynth {
      calls, res := ReviewAndSynthesize(job, draft.value, replies, calls, res);
    } else {
      res := res.(content := draft.value);
    }
    SpentIsBilled(replies, calls);
    return res, calls, false, solver;
  }

  lemma {:induction false} StagesInOrder(replies: Replies, calls: seq<Call>, budget: nat)
    requires budget > 0 && Roles(calls) <= Planned(budget)
    ensures |calls| <= budget && |calls| <= 4 && Ordered(TraceOf(replies, calls))
  {
    PlannedFits(budget, Roles(calls));
    assert forall i :: 0 <= i < |calls| ==> calls[i].role == Roles(calls)[i];
    TraceOrdered(replies, calls);
  }

  /** Every run, whatever fails: at most as many calls as the budget, failed ones included; steps numbered from one,
      at most one per stage and in stage order; usage is the sum over the answered calls; only eligible workers are
      called. */
  lemma {:induction false} RunsAreBounded(job: Job, replies: Replies, calls: seq<Call>, res: Result, failed: bool)
    requires Conducted(job, replies, calls, res, failed)
    ensures |calls| <= Budget(job.cfg) && |calls| <= 4
    ensures |res.steps| <= |calls| && forall i :: 0 <= i < |res.steps| ==> res.steps[i].step == i + 1
    ensures Ordered(res.steps)
    ensures Billed(replies, calls, res.usage)
    ensures forall i :: 0 <= i < |calls| ==> calls[i].worker in job.eligible
  {
    StepsNumbered(replies, calls);
    SpentIsBilled(replies, calls);
    StagesInOrder(replies, calls, Budget(job.cfg));
    forall i | 0 <= i < |calls| ensures calls[i].worker in job.eligible { OnlyEligible(job, calls[i]); }
  }

  /** The cross-check: a verifier's id differs from the drafting worker's exactly when some eligible worker has
      another id. */
  lemma {:induction false} CrossChecked(job: Job, replies: Replies, calls: seq<Call>, res: Result, i: nat, j: nat)
    requires RunInv(replies, calls, res, job) && i < |calls| && j < |calls| && calls[i].role.Solver? &&
        calls[j].role.Verifier?
    ensures calls[j].worker.id != calls[i].worker.id <==>
        exists k :: 0 <= k < |job.eligible| && job.eligible[k].id != calls[i].worker.id
  {
    assert Staffed(job, calls[i]) && Staffed(job, calls[j]);
  }

  /** A pool has at most one best worker. */
  lemma {:induction false} BestIsUnique(ws: seq<Worker>, excluded: Option<string>, score: Worker -> real, w: Worker,
      v: Worker)
    requires IsBest(ws, excluded, score, Some(w)) && IsBest(ws, excluded, score, Some(v))
    ensures w == v
  {
  }

  /** The best verifier among the workers with another id than the producer serves another model. */
  ghost predicate OtherModelIsBest(cfg: Config, eligible: seq<Worker>, producer: Worker) {
    exists w :: IsBest(eligible, Some(producer.id), VerifyScore(cfg), Some(w)) && w.model != producer.model
  }

  lemma {:induction false} VerifierModel(cfg: Config, eligible: seq<Worker>, producer: Worker, verifier: Worker)
    requires Verifies(cfg, eligible, producer, verifier)
    ensures verifier.model != producer.model <==> OtherModelIsBest(cfg, eligible, producer)
  {
    if w :| IsBest(eligible, Some(producer.id), VerifyScore(cfg), Some(w)) && w.model != producer.model {
      BestIsUnique(eligible, Some(producer.id), VerifyScore(cfg), w, verifier);
    }
  }

  /** Eligible workers with different ids never share a model. */
  predicate ModelsApart(eligible: seq<Worker>) {
    forall i, j :: 0 <= i < |eligible| && 0 <= j < |eligible| && eligible[i].id != eligible[j].id ==>
      eligible[i].model != eligible[j].model
  }

  /** In every run the draft is checked by another model exactly when the best of the workers with another id serves
      one; if ids never share a model, exactly when some eligible worker has another id. */
  lemma {:induction false} OtherModelExactly(job: Job, replies: Replies, calls: seq<Call>, res: Result, failed: bool,
      i: nat, j: nat)
    requires Conducted(job, replies, calls, res, failed)
    requires i < |calls| && j < |calls| && calls[i].role.Solver? && calls[j].role.Verifier?
    ensures calls[j].worker.model != calls[i].worker.model <==> OtherModelIsBest(job.cfg, job.eligible, job.solver)
    ensures ModelsApart(job.eligible) ==>
              (calls[j].worker.model != calls[i].worker.model <==>
               exists k :: 0 <= k < |job.eligible| && job.eligible[k].id != calls[i].worker.id)
  {
    assert Staffed(job, calls[i]) && Staffed(job, calls[j]);
    VerifierModel(job.cfg, job.eligible, job.solver, calls[j].worker);
    OnlyEligible(job, calls[j]);
  }

  lemma {:induction false} FirstOfEquals(cfg: Config, task: string, pool: seq<Worker>)
    requires |pool| == 3 && forall i :: 0 <= i < 3 ==> pool[i].tasks == [] && pool[i].cost == 0.0
    requires pool[0].strength == pool[1].strength == 1.0 && pool[2].strength == 0.25
    ensures Solves(cfg, task, pool, pool[0])
  {
    var score := TaskScore(cfg, task);
    assert score(pool[0]) == 1.0 && score(pool[1]) == 1.0 && score(pool[2]) == 0.25;
  }

  /** The cross-check is by worker id: here a worker that serves another model is eligible, the first worker drafts
      whatever the task, and still every verifier the code may pick for its draft serves the same model. */
  lemma {:induction false} OtherModelPassedOver(cfg: Config) returns (pool: seq<Worker>)
    ensures Sound(pool) && exists i :: 0 <= i < |pool| && pool[i].model != pool[0].model
    ensures forall task :: Solves(cfg, task, pool, pool[0])
    ensures exists w :: Verifies(cfg, pool, pool[0], w)
    ensures forall w :: Verifies(cfg, pool, pool[0], w) ==> w.model == pool[0].model
  {
    var same := Worker("b", "m", [], 1.0, 0.0, 0);
    pool := [Worker("a", "m", [], 1.0, 0.0, 0), same, Worker("c", "n", [], 0.25, 0.0, 0)];
    assert pool[1] == same && VerifyScore(cfg)(same) == 1.0 && VerifyScore(cfg)(pool[2]) == 0.25;
    assert IsBest(pool, Some("a"), VerifyScore(cfg), Some(same));
    assert pool[2].model != pool[0].model && pool[1].id != pool[0].id;
    assert Verifies(cfg, pool, pool[0], same);
    forall task ensures Solves(cfg, task, pool, pool[0]) { FirstOfEquals(cfg, task, pool); }
    forall w | Verifies(cfg, pool, pool[0], w) ensures w.model == pool[0].model {
      BestIsUnique(pool, Some("a"), VerifyScore(cfg), w, same);
    }
  }

  /** One routed call. Without an answer there is no result at all. */
  method Single(base: seq<Message>, params: Params, w: Worker, replies: Replies)
      returns (res: Option<Result>, calls: seq<Call>)
    ensures calls == [Call(Route, w, base, params)]
    ensures res.None? <==> replies(0, calls[0]).None?
    ensures res.Some? ==> Charged(replies, calls, res.value) && res.value.content == replies(0, calls[0]).value.text
  {
    var c := Call(Route, w, base, params);
    calls := [c];
    var reply := replies(0, c);
    if reply.None? { return None, calls; }
    var r := reply.value;
    var out := Result(r.text, r.usage, [StepInfo(1, Route, w.id, w.model, r.backend, r.latency)]);
    ChargedSnoc(replies, [], c, Result("", NO_USAGE, []), out);
    assert [] + [c] == calls;
    return Some(out), calls;
  }

  datatype Outcome = NoMessages | NoEligibleWorker | CallFailed | Done

  /** Is the request handled by the workflow rather than by one worker? */
  predicate Conducts(cfg: Config, virtualModel: string, cls: Class) {
    cfg.conductorModel != "" && (virtualModel == cfg.conductorModel || cls.confidence < cfg.confidenceThreshold)
  }

  /** Who gets a request that is not conducted: the strongest worker when unsure of the task, else the best for it. */
  ghost predicate RoutedTo(cfg: Config, cls: Class, eligible: seq<Worker>, w: Worker) {
    if cls.confidence < cfg.confidenceThreshold then IsBest(eligible, None, Strength, Some(w))
        else Solves(cfg, cls.task, eligible, w)
  }

  /** One request. Every worker it reaches is in the pool and admits the request's secret level; a single-worker route
      makes one call, the workflow a run of its stages; whatever result comes back is charged exactly the answered
      calls. */
  method Handle(cfg: Config, virtualModel: string, base: seq<Message>, params: Params, secretLevel: int, cls: Class,
      replies: Replies)
    returns (outcome: Outcome, res: Option<Result>, calls: seq<Call>)
    requires forall i :: 0 <= i < |cfg.workers| ==> Strength(cfg.workers[i]) > FLOOR
    ensures forall i :: 0 <= i < |calls| ==> calls[i].worker in cfg.workers && Admits(calls[i].worker, secretLevel)
    ensures base == [] <==> outcome.NoMessages?
    ensures outcome.NoEligibleWorker? <==> base != [] && forall w :: w in cfg.workers ==> !Admits(w, secretLevel)
    ensures calls == [] <==> outcome.NoMessages? || outcome.NoEligibleWorker?
    ensures |calls| <= 1 || |calls| <= Budget(cfg)
    ensures res.Some? ==> Charged(replies, calls, res.value) && Billed(replies, calls, res.value.usage)
    ensures outcome.Done? ==> res.Some?
    ensures calls != [] ==>
              (calls[0].role.Route? <==>
               cfg.conductorModel == "" ||
               (virtualModel != cfg.conductorModel && cls.confidence >= cfg.confidenceThreshold))
    ensures calls != [] && Conducts(cfg, virtualModel, cls) ==>
              res.Some? && exists solver ::
                  Conducted(Job(cfg, base, params, Eligible(cfg.workers, secretLevel), cls.task, solver), replies,
                      calls, res.value, outcome.CallFailed?)
    ensures calls != [] && !Conducts(cfg, virtualModel, cls) ==>
              && calls == [Call(Route, calls[0].worker, base, params)] &&
                  RoutedTo(cfg, cls, Eligible(cfg.workers, secretLevel), calls[0].worker)
              && (outcome.CallFailed? <==> replies(0, calls[0]).None?)
              && (outcome.Done? ==> res.value.content == replies(0, calls[0]).value.text)
  {
    if |base| == 0 { return NoMessages, None, []; }
    var eligible := EligibleWorkers(cfg, secretLevel);
    if |eligible| == 0 { return NoEligibleWorker, None, []; }
    assert eligible[0] in eligible;
    assert Sound(eligible) by {
      forall i | 0 <= i < |eligible| ensures Strength(eligible[i]) > FLOOR { assert eligible[i] in eligible; }
    }
    if cfg.conductorModel != "" && virtualModel == cfg.conductorModel {
      outcome, res, calls := Conduct(cfg, base, params, eligible, cls.task, replies);
      return;
    }
    var w;
    if cls.confidence < cfg.confidenceThreshold {
      if cfg.conductorModel != "" {
        outcome, res, calls := Conduct(cfg, base, params, eligible, cls.task, replies);
        return;
      }
      var best := PickBest(eligible, None, Strength);
      assert best.Some? by { assert Strength(eligible[0]) > FLOOR; }
      w := best.value;
    } else {
      w := SelectSolver(cfg, cls.task, eligible);
    }
    res, calls := Single(base, params, w, replies);
    SpentIsBilled(replies, calls);
    return if res.None? then CallFailed else Done, res, calls;
  }

  /** The workflow's result is handed back even when the run failed. */
  method Conduct(cfg: Config, base: seq<Message>, params: Params, eligible: seq<Worker>, task: string, replies: Replies)
    returns (outcome: Outcome, res: Option<Result>, calls: seq<Call>)
    requires Sound(eligible)
    ensures outcome.CallFailed? || outcome.Done?
    ensures res.Some? && exists solver ::
        Conducted(Job(cfg, base, params, eligible, task, solver), replies, calls, res.value, outcome.CallFailed?)
    ensures calls != [] && |calls| <= Budget(cfg) && Charged(replies, calls, res.value) && !calls[0].role.Route?
    ensures Billed(replies, calls, res.value.usage)
    ensures forall i :: 0 <= i < |calls| ==> calls[i].worker in eligible
  {
    var result, failed, solver;
    result, calls, failed, solver := RunConductor(cfg, base, params, eligible, task, replies);
    RunsAreBounded(Job(cfg, base, params, eligible, task, solver), replies, calls, result, failed);
    assert calls[0].role == Roles(calls)[0] == Planned(Budget(cfg))[0];
    return if failed then CallFailed else Done, Some(result), calls;
  }
}
