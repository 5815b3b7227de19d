/**
 * The single-threaded "Many to One" thread model: foreground tasks are plain
 * records shown one after another on the caller's thread, and background tasks
 * are stepped once each, on the caller's thread, every time the driver joins.
 */
module Sync {
  import opened Platform
  import opened DecimalText
  import opened ThreadModelKinds

  /** `random_range(0..1000)`: a background step sleeps strictly less than this many milliseconds. */
  const SLEEP_RANGE_MS: nat := 1000

  /** Side of one cell of the window placement grid, in points. */
  const GRID: nat := 128

  /** Number of rows of the placement grid before a new column starts. */
  const ROWS: nat := 7

  /** The `ImageSource::Uri` a foreground task displays; its bytes are not modelled. */
  datatype ImageSource = Uri(uri: string)

  /** A point of the screen, on the integer grid only. */
  datatype Pos2 = Pos2(x: int, y: int)

  /** What one `show` asks the UI for: a window with this title, default position and image. */
  datatype Window = Window(title: string, defaultPos: Pos2, image: ImageSource)

  /** A foreground task of this model: its number, its window title and its image. */
  datatype SyncForegroundTask = SyncForegroundTask(taskNr: nat, title: string, image: ImageSource)

  /** The prefix of every foreground window title. */
  const TITLE_PREFIX: string := "Window "

  /** `format!("Window {task_nr}")` */
  function Title(n: nat): (s: string)
    ensures |s| > |TITLE_PREFIX| && s[..|TITLE_PREFIX|] == TITLE_PREFIX
    ensures s[|TITLE_PREFIX|..] == Decimal(n)
  {
    TITLE_PREFIX + Decimal(n)
  }

  /** The number a title names is recovered from the text after the prefix. */
  lemma TitleNamesTask(n: nat)
    ensures |Title(n)| > |TITLE_PREFIX| && Title(n)[..|TITLE_PREFIX|] == TITLE_PREFIX
    ensures AllDigits(Title(n)[|TITLE_PREFIX|..]) && ParseDecimal(Title(n)[|TITLE_PREFIX|..]) == n
  {
    assert Title(n)[|TITLE_PREFIX|..] == Decimal(n);
    ParseDecimalInverts(n);
  }

  /** Different task numbers get different titles. */
  lemma TitleInjective(a: nat, b: nat)
    ensures Title(a) == Title(b) <==> a == b
  {
    TitleNamesTask(a);
    TitleNamesTask(b);
  }

  /** `SyncForegroundTask::new(task_nr, image)` */
  function NewForegroundTask(taskNr: nat, image: ImageSource): (t: SyncForegroundTask)
    ensures t.taskNr == taskNr && t.image == image
    ensures |t.title| > |TITLE_PREFIX| && t.title[..|TITLE_PREFIX|] == TITLE_PREFIX
    ensures t.title[|TITLE_PREFIX|..] == Decimal(taskNr)
    ensures AllDigits(t.title[|TITLE_PREFIX|..]) && ParseDecimal(t.title[|TITLE_PREFIX|..]) == taskNr
  {
    TitleNamesTask(taskNr);
    SyncForegroundTask(taskNr, Title(taskNr), image)
  }

  /** The default window position of task `n`: column `n / 7`, row `n % 7 + 1`. */
  function DefaultPos(n: nat): (p: Pos2)
    ensures 0 <= p.x && p.x % GRID == 0
    ensures GRID <= p.y <= ROWS * GRID && p.y % GRID == 0
  {
    Pos2(GRID * (n / ROWS), GRID * (n % ROWS + 1))
  }

  /** The task number whose default position is the grid point `p`. */
  function TaskAtPos(p: Pos2): int
  {
    ROWS * (p.x / GRID) + p.y / GRID - 1
  }

  /** The default position determines the task number. */
  lemma PositionIdentifiesTask(n: nat)
    ensures TaskAtPos(DefaultPos(n)) == n
  {
  }

  /** No two foreground tasks are placed at the same default position. */
  lemma DistinctPositions(a: nat, b: nat)
    ensures DefaultPos(a) == DefaultPos(b) <==> a == b
  {
    PositionIdentifiesTask(a);
    PositionIdentifiesTask(b);
  }

  /** `SyncForegroundTask::show`, reduced to the window it requests. */
  function Show(t: SyncForegroundTask): (w: Window)
    ensures w.title == t.title && w.image == t.image
    ensures w.defaultPos == DefaultPos(t.taskNr)
    ensures TaskAtPos(w.defaultPos) == t.taskNr
    ensures GRID <= w.defaultPos.y <= ROWS * GRID
  {
    PositionIdentifiesTask(t.taskNr);
    Window(t.title, DefaultPos(t.taskNr), t.image)
  }

  /** A background task holds a clone of the `Arc` of the counter it increments. */
  class SyncBackgroundTask {
    const counter: AtomicU64

    constructor (counter: AtomicU64)
      ensures this.counter == counter
    {
      this.counter := counter;
    }

    /** One step: add one to the counter, then sleep for the drawn duration. */
    method Run(sleepMs: nat, clock: Clock)
      requires sleepMs < SLEEP_RANGE_MS
      modifies counter, clock
      ensures counter.value == WrappingAdd(old(counter.value), 1)
      ensures clock.nowMs == old(clock.nowMs) + sleepMs
    {
      var _ := counter.FetchAdd(1);
      clock.Sleep(sleepMs);
    }
  }

  /** The counters the tasks in `tasks` increment. */
  function Counters(tasks: seq<SyncBackgroundTask>): set<AtomicU64>
  {
    set i | 0 <= i < |tasks| :: tasks[i].counter
  }

  /** How many of the first `n` tasks hold `c`. */
  function HoldersBefore(tasks: seq<SyncBackgroundTask>, n: nat, c: AtomicU64): nat
    requires n <= |tasks|
  {
    if n == 0 then 0 else HoldersBefore(tasks, n - 1, c) + (if tasks[n - 1].counter == c then 1 else 0)
  }

  /** How many of `tasks` hold `c`. */
  function CounterRefs(tasks: seq<SyncBackgroundTask>, c: AtomicU64): nat
  {
    HoldersBefore(tasks, |tasks|, c)
  }

  /** Every task in `tasks` holds the same counter `c`, as the driver arranges it. */
  predicate SharesCounter(tasks: seq<SyncBackgroundTask>, c: AtomicU64)
  {
    forall i :: 0 <= i < |tasks| ==> tasks[i].counter == c
  }

  /** The first `n` tasks all hold `c` exactly when `c` has `n` holders among them. */
  lemma {:induction false} AllHoldIffCount(tasks: seq<SyncBackgroundTask>, n: nat, c: AtomicU64)
    requires n <= |tasks|
    ensures (forall i :: 0 <= i < n ==> tasks[i].counter == c) <==> HoldersBefore(tasks, n, c) == n
    ensures HoldersBefore(tasks, n, c) <= n
  {
    if n > 0 {
      AllHoldIffCount(tasks, n - 1, c);
    }
  }

  /** All tasks hold `c` exactly when `c` is held by as many tasks as there are. */
  lemma SharedIffAllRefs(tasks: seq<SyncBackgroundTask>, c: AtomicU64)
    ensures SharesCounter(tasks, c) <==> CounterRefs(tasks, c) == |tasks|
  {
    AllHoldIffCount(tasks, |tasks|, c);
  }

  /** Total of a list of sleep durations. */
  function Sum(ds: seq<nat>): nat
  {
    if |ds| == 0 then 0 else Sum(ds[..|ds| - 1]) + ds[|ds| - 1]
  }

  /** Every step sleeps under a second, so `n` steps sleep at most `999 * n` milliseconds. */
  lemma {:induction false} SumBound(ds: seq<nat>)
    requires forall i :: 0 <= i < |ds| ==> ds[i] < SLEEP_RANGE_MS
    ensures Sum(ds) <= (SLEEP_RANGE_MS - 1) * |ds|
  {
    if |ds| > 0 {
      var init := ds[..|ds| - 1];
      assert forall i :: 0 <= i < |init| ==> init[i] == ds[i];
      SumBound(init);
    }
  }

  class ManyToOneModel {
    var foregroundTasks: seq<SyncForegroundTask>
    var backgroundTasks: seq<SyncBackgroundTask>
    /** How many times `create_background_task` has been called on this model. */
    ghost var backgroundCreated: nat

    /** The i-th foreground task is the one `SyncForegroundTask::new` builds for number i. */
    ghost predicate Valid()
      reads this
    {
      && |backgroundTasks| == backgroundCreated
      && forall i :: 0 <= i < |foregroundTasks| ==>
        foregroundTasks[i] == NewForegroundTask(i, foregroundTasks[i].image)
    }

    /** `ManyToOneModel::default()` */
    constructor ()
      ensures Valid()
      ensures foregroundTasks == [] && backgroundTasks == [] && backgroundCreated == 0
    {
      foregroundTasks := [];
      backgroundTasks := [];
      backgroundCreated := 0;
    }

    /** `get_kind`: this model is the one shown as "Many to One". */
    function GetKind(): (k: ThreadModelKind)
      ensures Display(k) == "Many to One"
    {
      ManyToOne
    }

    /** `create_foreground_task`: the new task's number is the number of tasks before it. */
    method CreateForegroundTask(image: ImageSource)
      requires Valid()
      modifies this
      ensures Valid()
      ensures foregroundTasks == old(foregroundTasks) + [NewForegroundTask(|old(foregroundTasks)|, image)]
      ensures backgroundTasks == old(backgroundTasks) && backgroundCreated == old(backgroundCreated)
    {
      foregroundTasks := foregroundTasks + [NewForegroundTask(|foregroundTasks|, image)];
    }

    /** `create_background_task`: one new task, bound to `counter`, at the end of the list. */
    method CreateBackgroundTask(counter: AtomicU64)
      requires Valid()
      modifies this
      ensures Valid()
      ensures foregroundTasks == old(foregroundTasks)
      ensures backgroundCreated == old(backgroundCreated) + 1
      ensures NumBackgroundTasks() == old(NumBackgroundTasks()) + 1
      ensures backgroundTasks[..|old(backgroundTasks)|] == old(backgroundTasks)
      ensures fresh(backgroundTasks[|old(backgroundTasks)|])
      ensures backgroundTasks[|old(backgroundTasks)|].counter == counter
    {
      var task := new SyncBackgroundTask(counter);
      backgroundTasks := backgroundTasks + [task];
      backgroundCreated := backgroundCreated + 1;
    }

    /** `create_evil_task`: nothing to disrupt in a single-threaded model. */
    method CreateEvilTask()
      ensures unchanged(this)
    {
    }

    /** `num_background_tasks`: the number of `create_background_task` calls so far. */
    function NumBackgroundTasks(): (n: nat)
      requires Valid()
      reads this
      ensures n == backgroundCreated
    {
      |backgroundTasks|
    }

    /** `run_interactive`: show every foreground task once, in creation order. */
    method RunInteractive() returns (windows: seq<Window>)
      requires Valid()
      ensures |windows| == |foregroundTasks|
      ensures forall i :: 0 <= i < |windows| ==> windows[i] == Show(foregroundTasks[i])
      ensures forall i :: 0 <= i < |windows| ==>
        windows[i].title == Title(i) && windows[i].defaultPos == DefaultPos(i)
    {
      windows := [];
      for i := 0 to |foregroundTasks|
        invariant |windows| == i
        invariant forall j :: 0 <= j < i ==> windows[j] == Show(foregroundTasks[j])
      {
        windows := windows + [Show(foregroundTasks[i])];
      }
    }

    /**
     * `join_interactive`: step every background task once, in list order, with the
     * i-th step sleeping `sleepsMs[i]`. Both task lists stay as they are.
     */
    method JoinInteractive(sleepsMs: seq<nat>, clock: Clock)
      requires |sleepsMs| == |backgroundTasks|
      requires forall i :: 0 <= i < |sleepsMs| ==> sleepsMs[i] < SLEEP_RANGE_MS
      modifies Counters(backgroundTasks), clock
      ensures forall c :: c in Counters(backgroundTasks) ==>
        c.value == Wrap(old(c.value) + CounterRefs(backgroundTasks, c))
      ensures forall c :: c in Counters(backgroundTasks) && SharesCounter(backgroundTasks, c) ==>
        c.value == Wrap(old(c.value) + |backgroundTasks|)
      ensures clock.nowMs == old(clock.nowMs) + Sum(sleepsMs)
      ensures clock.nowMs <= old(clock.nowMs) + (SLEEP_RANGE_MS - 1) * |backgroundTasks|
      ensures foregroundTasks == old(foregroundTasks) && backgroundTasks == old(backgroundTasks)
    {
      RunEach(backgroundTasks, sleepsMs, clock, Counters(backgroundTasks));
      forall c | c in Counters(backgroundTasks) && SharesCounter(backgroundTasks, c)
        ensures CounterRefs(backgroundTasks, c) == |backgroundTasks|
      {
        SharedIffAllRefs(backgroundTasks, c);
      }
      SumBound(sleepsMs);
    }
  }

  /** Each counter in `start` has risen from its start value by its holders among the first `n` tasks. */
  ghost predicate Tallied(tasks: seq<SyncBackgroundTask>, start: map<AtomicU64, U64>, n: nat)
    requires n <= |tasks|
    reads start.Keys
  {
    forall c :: c in start ==> c.value == Wrap(start[c] + HoldersBefore(tasks, n, c))
  }

  /**
   * The loop of `join_interactive`: run `tasks[0]`, then `tasks[1]`, and so on,
   * where `counters` holds every task's counter. Each counter rises by the number
   * of tasks holding it, and the caller's total requested sleep time by the total of the sleeps.
   */
  method RunEach(tasks: seq<SyncBackgroundTask>, sleepsMs: seq<nat>, clock: Clock, ghost counters: set<AtomicU64>)
    requires forall j :: 0 <= j < |tasks| ==> tasks[j].counter in counters
    requires |sleepsMs| == |tasks|
    requires forall i :: 0 <= i < |sleepsMs| ==> sleepsMs[i] < SLEEP_RANGE_MS
    modifies counters, clock
    ensures forall c :: c in counters ==> c.value == Wrap(old(c.value) + CounterRefs(tasks, c))
    ensures clock.nowMs == old(clock.nowMs) + Sum(sleepsMs)
  {
    ghost var start := map c | c in counters :: c.value;
    var i := 0;
    while i < |tasks|
      invariant 0 <= i <= |tasks|
      invariant Tallied(tasks, start, i)
      invariant clock.nowMs == old(clock.nowMs) + Sum(sleepsMs[..i])
    {
      StepTask(tasks, i, sleepsMs[i], clock, start);
      SumSnoc(sleepsMs, i);
      i := i + 1;
    }
    assert sleepsMs[..i] == sleepsMs;
  }

  /** One iteration of `RunEach`: `tasks[i].run()` moves the tally from `i` tasks to `i + 1`. */
  method StepTask(tasks: seq<SyncBackgroundTask>, i: nat, sleepMs: nat, clock: Clock, ghost start: map<AtomicU64, U64>)
    requires i < |tasks| && sleepMs < SLEEP_RANGE_MS
    requires tasks[i].counter in start
    requires Tallied(tasks, start, i)
    modifies tasks[i].counter, clock
    ensures Tallied(tasks, start, i + 1)
    ensures clock.nowMs == old(clock.nowMs) + sleepMs
  {
    var task := tasks[i];
    task.Run(sleepMs, clock);
    forall c | c in start
      ensures c.value == Wrap(start[c] + HoldersBefore(tasks, i + 1, c))
    {
      StepCount(tasks, i, c, start[c], old(c.value), c.value);
    }
  }

  /** The arithmetic of one step: the stepped task's counter wraps forward by one, the others stay. */
  lemma StepCount(tasks: seq<SyncBackgroundTask>, i: nat, c: AtomicU64, base: nat, before: U64, after: U64)
    requires i < |tasks|
    requires before == Wrap(base + HoldersBefore(tasks, i, c))
    requires after == if tasks[i].counter == c then WrappingAdd(before, 1) else before
    ensures after == Wrap(base + HoldersBefore(tasks, i + 1, c))
  {
    if tasks[i].counter == c {
      WrappingIncrementMod(base + HoldersBefore(tasks, i, c));
    }
  }

  /** Extending a prefix of `ds` by one duration adds that duration. */
  lemma SumSnoc(ds: seq<nat>, i: nat)
    requires i < |ds|
    ensures Sum(ds[..i + 1]) == Sum(ds[..i]) + ds[i]
  {
    assert ds[..i + 1][..i] == ds[..i];
  }

  /** The driver's "Spawn 1000 background tasks" button: `count` tasks, all bound to `counter`. */
  method SpawnBackgroundTasks(model: ManyToOneModel, counter: AtomicU64, count: nat)
    requires model.Valid()
    modifies model
    ensures model.Valid()
    ensures model.foregroundTasks == old(model.foregroundTasks)
    ensures model.NumBackgroundTasks() == old(model.NumBackgroundTasks()) + count
    ensures model.backgroundTasks[..|old(model.backgroundTasks)|] == old(model.backgroundTasks)
    ensures forall i :: |old(model.backgroundTasks)| <= i < |model.backgroundTasks| ==>
      model.backgroundTasks[i].counter == counter
    ensures old(SharesCounter(model.backgroundTasks, counter)) ==> SharesCounter(model.backgroundTasks, counter)
  {
    for k := 0 to count
      invariant model.Valid()
      invariant model.foregroundTasks == old(model.foregroundTasks)
      invariant model.NumBackgroundTasks() == old(model.NumBackgroundTasks()) + k
      invariant model.backgroundTasks[..|old(model.backgroundTasks)|] == old(model.backgroundTasks)
      invariant forall i :: |old(model.backgroundTasks)| <= i < |model.backgroundTasks| ==>
        model.backgroundTasks[i].counter == counter
      invariant old(SharesCounter(model.backgroundTasks, counter)) ==> SharesCounter(model.backgroundTasks, counter)
    {
      ghost var prev := model.backgroundTasks;
      model.CreateBackgroundTask(counter);
      assert model.backgroundTasks == prev + [model.backgroundTasks[|prev|]];
    }
  }

  /** One background task on a counter starting at `start`: a single join adds exactly one. */
  method SingleTaskJoin(start: U64, sleepMs: nat) returns (before: U64, after: U64)
    requires sleepMs < SLEEP_RANGE_MS
    ensures before == start
    ensures after == WrappingAdd(before, 1)
  {
    var counter := new AtomicU64(start);
    var model := new ManyToOneModel();
    model.CreateBackgroundTask(counter);
    var clock := new Clock(0);
    before := counter.Load();
    assert SharesCounter(model.backgroundTasks, counter);
    model.JoinInteractive([sleepMs], clock);
    after := counter.Load();
  }
}
