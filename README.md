# Many-to-One thread model and sequential benchmark, in Dafny

This project models the sequential slice of a demo that compares three thread
models for driving interactive ("foreground") and autonomous ("background")
tasks:

- **`ManyToOneModel`** (`src/impls/sync.rs`). Everything runs on the caller's
  thread. The model keeps two vectors. `create_foreground_task` and
  `create_background_task` push onto them. `run_interactive` shows every
  foreground window once, in creation order. `join_interactive` steps every
  background task once, in list order. A step adds one to that task's shared
  `AtomicU64` and then sleeps for a random 0 to 999 ms. `create_evil_task`
  does nothing.
- **The sequential benchmark** (`src/impls/bench.rs`). `do_work` adds one to a
  counter and runs a 100-step dummy loop. `bench_many_to_one` makes
  `n_workers` clones of one counter. It then calls `do_work` on every clone,
  `iterations` times over.
- **`ThreadModelKind`** (`src/impls/thread_model.rs`). A closed three-variant
  enum and the text each variant is displayed as.

Modules:

- `Platform` (platform.dfy) models the standard-library pieces the core uses.
  `U64` and `WrappingAdd` are 64-bit wrap-around arithmetic. `AtomicU64` is a
  class whose one field is the counter's value. A clone of an
  `Arc<AtomicU64>` is the same object, so aliasing is object identity.
  `Clock` is the caller's total requested sleep time, which `Sleep` advances.
- `ThreadModelKinds` and `Wrappers` (thread_model.dfy).
- `DecimalText` (format.dfy) models the `{n}` decimal rendering used in
  window titles.
- `Sync` (sync.dfy). Foreground tasks are values (a datatype). Each background
  task is a distinct object holding a reference to its counter, so it is a
  class whose one field is a `const`. The model is a class, since its task
  lists grow in place. `show` can replace a foreground task's image in place;
  that replacement is not modelled (see "Left out").
- `Bench` (bench.dfy).

The source's random draw and `thread::sleep` are external. Each sleep duration
is an input with the same range as `random_range(0..1000)`, and the sleep
adds the requested duration to a `Clock` object passed in by the caller. The egui `Context` is
dropped from every signature.

## Model

| member | source | states |
|---|---|---|
| `Platform.WrappingAdd` | src/impls/sync.rs:26 | the sum of two `u64`s, minus 2^64 exactly when it reaches 2^64 |
| `Platform.WrappingIncrementMod` | src/impls/sync.rs:26 | a wrapping increment of a count already wrapped to 64 bits equals the successor count wrapped to 64 bits |
| `Platform.AtomicU64.constructor` | src/impls/bench.rs:103 | `AtomicU64::new(v)` holds `v` |
| `Platform.AtomicU64.Load` | src/impls/app.rs:37 | `load` returns the counter's current value and changes nothing |
| `Platform.Clock.Sleep` | src/impls/sync.rs:33 | a sleep request of `ms` milliseconds adds exactly `ms` to the caller's total requested sleep time |
| `Platform.AtomicU64.FetchAdd` | src/impls/sync.rs:26 | `fetch_add` returns the previous value and stores the wrapped sum |
| `ThreadModelKinds.Display` | src/impls/thread_model.rs:13-22 | each kind is displayed as its own text, in both directions: `ManyToMany` exactly when "Many to Many", `ManyToOne` exactly when "Many to One", `OneToOne` exactly when "One to One" |
| `ThreadModelKinds.Parse` | src/impls/thread_model.rs:15-19 | any text that reads back as a kind is that kind's display text |
| `ThreadModelKinds.ParseDisplay` | src/impls/thread_model.rs:15-19 | displaying a kind and reading the text back gives the same kind, so the mapping is total |
| `ThreadModelKinds.DisplayParse` | src/impls/thread_model.rs:13-22 | a text is the display of a kind if and only if it reads back as that kind ("Many to Many", "Many to One", "One to One") |
| `ThreadModelKinds.DisplayInjective` | src/impls/thread_model.rs:15-19 | two kinds are displayed the same if and only if they are the same kind |
| `ThreadModelKinds.KindEquality` | src/impls/thread_model.rs:6-11 | the derived equality: two kinds are equal if and only if they are the same variant |
| `DecimalText.Decimal` | src/impls/sync.rs:45 | the rendering of `n` is non-empty, all digits, has no leading zero when `n > 0`, and has one digit exactly when `n < 10` |
| `DecimalText.ParseDecimalInverts` | src/impls/sync.rs:45 | reading the rendering of `n` back as a decimal number gives `n` |
| `DecimalText.DecimalInjective` | src/impls/sync.rs:45 | two numbers render the same if and only if they are equal |
| `Sync.Title` | src/impls/sync.rs:45 | the title of task `n` is "Window " followed by the shortest decimal numeral of `n` |
| `Sync.TitleNamesTask` | src/impls/sync.rs:45 | the title of task `n` is "Window " followed by digits that read back as `n` |
| `Sync.TitleInjective` | src/impls/sync.rs:45 | two task numbers get the same title if and only if they are equal |
| `Sync.NewForegroundTask` | src/impls/sync.rs:44-51 | the new task keeps the given number and image; its title is "Window " followed by the shortest decimal numeral of the number, which reads back as the number |
| `Sync.DefaultPos` | src/impls/sync.rs:54-57 | the default position is a point of the 128-point grid with x >= 0 and 128 <= y <= 896 |
| `Sync.PositionIdentifiesTask` | src/impls/sync.rs:54-57 | the task number is recovered from its default position |
| `Sync.DistinctPositions` | src/impls/sync.rs:54-57 | two tasks get the same default position if and only if they have the same number |
| `Sync.Show` | src/impls/sync.rs:53-70 | the requested window carries the task's title and image and is placed at the task's default position, which identifies the task, with y in 128..896 |
| `Sync.SyncBackgroundTask.constructor` | src/impls/sync.rs:91 | the task holds the counter it was given |
| `Sync.SyncBackgroundTask.Run` | src/impls/sync.rs:25-34 | the counter rises by exactly one, wrapping at 2^64; the sleep lies in 0..999 ms and adds that much to the requested sleep time; nothing else changes |
| `Sync.AllHoldIffCount` | src/impls/sync.rs:106-112 | the first `n` tasks all hold counter `c` if and only if `c` has `n` holders among them; there are never more than `n` |
| `Sync.SharedIffAllRefs` | src/impls/sync.rs:106-112 | every task holds counter `c` if and only if the number of holders of `c` equals the number of tasks |
| `Sync.SumBound` | src/impls/sync.rs:27-33 | `n` sleeps of at most 999 ms each total at most `999 * n` ms |
| `Sync.ManyToOneModel.constructor` | src/impls/sync.rs:73-77 | the default model has no tasks and satisfies the numbering invariant |
| `Sync.ManyToOneModel.GetKind` | src/impls/sync.rs:80-82 | the kind is the one displayed as "Many to One" |
| `Sync.ManyToOneModel.CreateForegroundTask` | src/impls/sync.rs:84-88 | appends exactly one task, numbered by the previous foreground count; keeps the invariant that task `i` is number `i` with title "Window i"; the background list is unchanged |
| `Sync.ManyToOneModel.CreateBackgroundTask` | src/impls/sync.rs:90-92 | appends exactly one new task bound to the given counter; the count of creations and `num_background_tasks` rise by one; the foreground list and the earlier tasks are unchanged |
| `Sync.ManyToOneModel.NumBackgroundTasks` | src/impls/sync.rs:96-98 | the number of background tasks equals the number of `create_background_task` calls made on the model |
| `Sync.ManyToOneModel.CreateEvilTask` | src/impls/sync.rs:94 | the model is unchanged |
| `Sync.ManyToOneModel.RunInteractive` | src/impls/sync.rs:100-104 | one window per foreground task, in list order; window `i` is titled "Window i" and placed at task `i`'s default position |
| `Sync.ManyToOneModel.JoinInteractive` | src/impls/sync.rs:106-112 | each counter rises by the number of tasks holding it, wrapped at 2^64; a counter shared by all tasks rises by exactly `num_background_tasks`; the total requested sleep time grows by the sum of the sleeps, at most 999 ms per task; both lists are unchanged |
| `Sync.RunEach` | src/impls/sync.rs:109-111 | running the tasks in list order raises each counter by its number of holders, and the requested sleep time by the sum of the sleeps |
| `Sync.StepTask` | src/impls/sync.rs:110 | running task `i` extends the tally of counter increments from the first `i` tasks to the first `i + 1` |
| `Sync.StepCount` | src/impls/sync.rs:110 | the stepped task's counter goes up by one, wrapping; every other counter keeps its value |
| `Sync.SpawnBackgroundTasks` | src/impls/app.rs:24-28 | the driver's batch of `count` creations raises `num_background_tasks` by `count`, binds every new task to the given counter, and keeps all tasks on one counter if they were before |
| `Sync.SingleTaskJoin` | src/impls/sync.rs:90-112 | with one background task, one join adds exactly one to its counter, wrapping at 2^64 |
| `Bench.DummyLoop` | src/impls/bench.rs:11-15 | the local loop runs exactly 100 times and ends with `s = 100`; `wrapping_add` never wraps |
| `Bench.DoWork` | src/impls/bench.rs:9-16 | the counter rises by exactly one, wrapping at 2^64 |
| `Bench.CloneTasks` | src/impls/bench.rs:105-108 | the task vector has exactly `n_workers` entries, each the same counter |
| `Bench.BenchManyToOne` | src/impls/bench.rs:102-117 | the counter ends at `n_workers * iterations` mod 2^64; after `k` outer iterations it is `k * n_workers` mod 2^64 |

## Left out

- The `ThreadModel` trait (src/impls/thread_model.rs:24-32) is not a Dafny declaration here, because the project uses no traits. `ManyToOneModel` has the trait's seven operations as its own members.
- The async thread models (`GreenThreadModel`, `OsThreadApp`), their channel rendezvous and their `Drop` teardown: these are concurrency, which this sequential model does not capture.
- `bench_one_to_one`, `bench_many_to_many` and `run_benchmarks` are left out. They need OS threads, a tokio runtime, wall-clock timing, `f64` division and string formatting.
- `Sync.ManyToOneModel.RunInteractive`, `Sync.Show`: the egui window rendering and the "Load Image" file dialog inside `show` are presentation and I/O. The dialog's replacement of a task's image is therefore not modelled. `show` is modelled as the window request it makes: title, default position and image.
- `Sync.DefaultPos`: the `f32` conversion of the position is not modelled, only the integer grid.
- `load_image` (file reading) is left out. An image is an opaque `ImageSource::Uri` value passed to `CreateForegroundTask`. The source always loads the same `IMAGE_PATH` (src/impls/sync.rs:85). It panics and appends nothing when that file cannot be read (the `unwrap` at src/impls/mod.rs:14). The model's `CreateForegroundTask` accepts any image and always appends.
- The random number generator is left out. Each sleep duration is an input required to lie in `0..1000`, the range the source draws from.
- `thread::sleep` only adds the requested duration to the caller's `Clock` object; real time is not modelled. A real sleep lasts at least the requested time and may last longer. So the 999 ms-per-task bound of `Sync.ManyToOneModel.JoinInteractive` and `Sync.SumBound` is on requested sleep time, not on wall-clock time.
- `Sync.NewForegroundTask`: `task_nr` is a `usize`, modelled as an unbounded `nat`. The vector length behind it cannot reach `usize::MAX`.
- `Sync.ManyToOneModel.JoinInteractive`: the ensures gives the net effect on each counter, not the interleaving in time. The list order is fixed by the loop in `Sync.RunEach`.
- `Bench.BenchManyToOne`: returns the final counter value instead of the elapsed `Duration`, because timing is not modelled.
- The driver (src/impls/app.rs) is context only; `Sync.SpawnBackgroundTasks` models its 1000-task button. Memory statistics and the progress bar are left out.
