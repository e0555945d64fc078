# Bounded-concurrency `map` (browser adaptation of p-map)

This project models `map(iterable, mapper, {concurrency, stopOnError})` from
`src/utils/promise.js` and proves its properties in Dafny. The function maps
every item of a source through an asynchronous mapper. At most `concurrency`
items are in flight at once, and results are kept by position. In fail-fast
mode (`stopOnError`, the default) the first failure rejects the call. In
collect-all mode every failure is collected, and the call rejects with the
whole list at the end.

Under the promises sits a single-threaded state machine over the executor's
locals: `ret`, `errors`, `isRejected`, `isIterableDone`, `resolvingCount` and
`currentIndex`. Three kinds of event drive it:

- the kickoff loop, which calls `next` up to `concurrency` times;
- `next`, which pulls one item and launches its asynchronous block;
- the end of one launched block, with a value or a failure.

The environment chooses which launched block ends next.

The project has three files:

- `map_spec.dfy` (module `MapSpec`) states the machine as pure functions over
  a `State` value. It defines the invariant and proves that every event
  preserves it. It also proves what the promise settles with once nothing is
  left in flight.
- `map_operation.dfy` (module `PromiseMap`) is the imperative form.
  - The class `MapOperation` has the executor's locals as fields and the
    events as methods.
  - Each method is proved to change the fields exactly as the matching spec
    function says.
  - `EndAll`, `Drain` and `Run` play the event loop. They end the launched blocks in a
    nondeterministically chosen order, so their guarantees hold for every
    completion order.
- `sequences.dfy` (module `Sequences`) holds facts about duplicate-free
  sequences. They are used to prove that collect-all mode records each
  failing item exactly once.

The mapper is a total function from an element and its index to a
`Completion`, either `Returned(value)` or `Threw(error)`. It stands for the
whole block: awaiting the element, then awaiting the mapper's result.

Some behaviour is reproduced as the source has it:

- `currentIndex` also advances on a pull that answers done.
- Every block that ends after the source is exhausted and calls `next`
  pulls again and gets the end marker again. Such a block either returned
  a value or failed in collect-all mode, and no abort came before it. A
  fail-fast failure does not call `next`. After an abort, `next` returns
  before it pulls.
- Each fail-fast failure leaves `resolvingCount` one more too high. The
  invariant records this as `|inFlight| < resolvingCount` once aborted.

## Model

| member | source | states |
|---|---|---|
| MapSpec.Validate | src/utils/promise.js:11-24 | The call is rejected as `InvalidMapper` exactly when the mapper is not callable. Otherwise the concurrency is rejected as `InvalidConcurrency` exactly when it is NaN, not a number, minus infinity or a number below 1. The result is unbounded exactly when the option is omitted or `Infinity`. A bounded window carries the given number, and a callable mapper with a number of at least 1 is accepted with exactly that bound. |
| MapSpec.FailingIndices | src/utils/promise.js:59-67 | The reference list of the items that throw: it holds exactly the indices below `k` whose block throws, each below `k`, in strictly increasing source order. |
| MapSpec.KickoffStep | src/utils/promise.js:34-53 | One round of the kickoff loop. While `k` items have been launched and `k` is within the window, `next` launches item `k` if it exists, and otherwise sees the end marker and reaches the state the kickoff ends in. |
| MapSpec.KickoffValid | src/utils/promise.js:72-75 | After the kickoff loop, run from the locals as lines 26-32 set them, the invariant between events holds. The iterator was pulled `limit` times if the source has at least `limit` items, otherwise `n + 1` times. Exactly the pulled items are in flight. An empty source is already fulfilled with an empty result, and any other source is still pending. No value or error is recorded yet. |
| MapSpec.InFlightBounded | src/utils/promise.js:51-58 | The invariant bounds the blocks in flight by the number of items and, for a bounded window, by `concurrency`. |
| MapSpec.NextKeepsCore | src/utils/promise.js:34-53 | Given room in the window, `next` keeps the invariant. Afterwards the promise is settled or some block is in flight. |
| MapSpec.CompleteKeepsValid | src/utils/promise.js:53-69 | The end of any in-flight block keeps the invariant between events. It counts one more ended block, never moves the cursor back, and strictly decreases the number of events still to come. |
| MapSpec.CompleteEffects | src/utils/promise.js:35-69 | When block `i` ends: a value is written into slot `i` only if the slot was empty, and it is item `i`'s own value. A failure of item `i` is recorded once. Collect-all mode appends its error. After an abort, nothing is pulled and the promise does not change. The first fail-fast failure aborts and rejects with its own error. Every other ending pulls exactly once more. At most the pulled index joins the in-flight set. |
| MapSpec.CompleteNeverGrows | src/utils/promise.js:53-69 | After the kickoff, the end of a block never increases the number of blocks in flight. The block removes its own index and its call of `next` adds at most the one it pulls. |
| MapSpec.ObservedStep | src/utils/promise.js:53-69 | Ending any in-flight block extends a run of the event loop. The extended run keeps the invariant between events in its last state. No state in it has more blocks in flight than its first state. The number of events still to come strictly decreases. |
| MapSpec.Drained | src/utils/promise.js:41-47 | Once nothing is in flight, the promise is settled as follows. If every item returns, it is fulfilled with every item's value in its own slot, and the iterator was pulled `kickoff + n` times. In fail-fast mode with a failing item, it is rejected with the error of the first failure in time. In collect-all mode with a failing item, it is rejected with the errors in the order they happened, one per failing item and each exactly once, which is a permutation of the failing indices. |
| PromiseMap.MapOperation.constructor | src/utils/promise.js:11-32 | Validation, the executor's locals, then the kickoff. An invalid argument rejects with its kind, with nothing pulled and nothing in flight. Otherwise the kickoff's pull count, in-flight items and outcome are set as the kickoff promises, and the invariant between events holds. |
| PromiseMap.MapOperation.Start | src/utils/promise.js:72-75 | The kickoff loop, with its `break`, leaves exactly the state `KickedOff` describes. |
| PromiseMap.MapOperation.Settle | src/utils/promise.js:45-62 | Settling the promise, by `resolve(ret)` or `reject(errors)` at lines 45-46 or by `reject(error)` at line 62: the first call wins, and later calls change nothing. |
| PromiseMap.MapOperation.Next | src/utils/promise.js:34-53 | The fields change exactly as `NextStep` says: nothing after an abort; otherwise one pull and `currentIndex + 1`; on done, the exhausted flag and, with nothing in flight, the settlement; on an item, one more block in flight. |
| PromiseMap.MapOperation.Complete | src/utils/promise.js:53-69 | The fields change exactly as `CompleteStep` says for the ending block `i`: store and pull again, abort and reject, or record and pull again. |
| PromiseMap.MapOperation.EndAll | src/utils/promise.js:53-69 | The event loop ends the in-flight blocks one at a time, in any order, until none is left. It returns the states it passed through, from the state it started in to the current one. Each state is the previous one after `CompleteStep` of a block then in flight, and none has more blocks in flight than the first. |
| PromiseMap.MapOperation.Drain | src/utils/promise.js:41-69 | After ending every block, the promise settles as `Drained` states. The object's final fields keep the invariant between events, with nothing in flight and the promise settled with the returned value. The pull count is the final `currentIndex`. No state passed through has more blocks in flight than at the start. |
| PromiseMap.Run | src/utils/promise.js:11-76 | A whole call, for every completion order. An invalid argument rejects with its kind and zero pulls. A valid call starts from the state the kickoff leaves, which has `min(concurrency, n)` blocks in flight. It passes only through states reached by ending an in-flight block, none of which has more blocks in flight than that, nor more than `n` or `concurrency`. It ends with nothing in flight. The returned pull count and failure list are the final state's `currentIndex` and recorded failures, and the settlement is as `Drained` states. |

## Left out

- The Promise and `async` machinery is left out: `new Promise`, `await`, and
  the async block around each item. Awaiting is modelled as the environment
  ending one launched block.
- A rejected pending element is not modelled separately. It takes the same
  catch path as a mapper that throws, so the completion function covers both.
- The JavaScript iterator protocol, including an iterator whose `next` throws,
  is left out. The source is a finite sequence, and a pull past its end keeps
  answering done.
- `Infinity` as a floating-point number is replaced by the `Unbounded`
  window.
- Non-integral concurrency values such as 1.5 are left out. The model takes
  integers, the two infinities, NaN and non-numbers.
- The text of the TypeError messages is left out. Only the error kind is
  kept.
- The way a throw inside the promise executor becomes a rejection is left
  out. A validation failure is modelled as a `ConfigRejected` outcome reached
  with nothing pulled.
- `stopOnError` is a boolean. JavaScript truthiness of other values is not
  modelled.
- Blocks still in flight after a fail-fast abort keep running in the source,
  and their side effects are not modelled. In the model they still write
  their slot of `ret`, as the source does at line 56, but they change neither
  the outcome nor the cursor.
- The `stopOnError = true` default for an omitted option is not modelled.
  `stopOnError` is always given, and so is the whole options object.
- A block that never ends is not modelled. In the source, an element or
  mapper promise that never settles leaves the returned promise pending for
  ever. In the model every completion is total, so the event loop always
  ends every block and the promise always settles.
- PromiseMap.Run: the bound on blocks in flight is stated for the states
  between events. JavaScript runs `next` and each block's continuation to
  completion, so no other state can be observed.
