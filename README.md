# croqueta core, modelled in Dafny

This project models the core of croqueta, a small TypeScript engine for browser (WebGL)
applications. The model covers these parts:

- **Functional containers.** `Option`, `Either` and `Try`, with the `Option(v)` and `Try(f)`
  factories.
- **`ArrayList` and its iterator.** `remove` follows JavaScript `splice` for integer indices, and `removeValue`
  follows `indexOf` then `splice`.
- **`EventManager`.** A map from event name to listener lists, with in-order dispatch.
- **`Kernel` and `TimeHistory`.** The frame scheduler, and the ring buffer that smooths the
  frame delta.
- **`Context`.** A key/value store that falls back to a parent context.
- **`CrShader` and `Shader`.** Shader compilation and program linking against an abstract WebGL
  context.
- **`Matrix`.** A 4x4 matrix stored column-major, and its index logic.
- **`Coord4D`.** Four components selected by index.

There is one Dafny module per source file: `Exceptions` (error kinds and the outcome of a
JavaScript call), `Options`, `Eithers`, `Tries`, `ArrayLists`, `EventManagers`, `Kernels`,
`Contexts`, `Shaders`, `Matrices` and `Coords`.

How JavaScript values appear in the model:

- **`null` and `undefined`** are `Options.Nullable` (`Null | Undefined | Val(v)`). They are kept
  apart because the code distinguishes them (`orNull`, `orUndefined`).
- **A call that may throw** returns `Exceptions.Completion` (`Returned(v) | Threw(e)`). This is how
  the `Try` callbacks, `Option.get`, the iterator's `next` and the `Coord4D` accessors are modelled.
- **Objects whose fields the code updates** are Dafny classes: `ArrayList`, the iterator,
  `EventManager`, `TimeHistory`, `Kernel`, `Context`, `CrShader`, `Shader`, `Matrix` and `Coord4D`.
  Their methods state the whole new state.

Environment inputs become parameters or oracles:

- `performance.now()` is a `now` parameter.
- `requestAnimationFrame` is a counter of requested frames that have not yet been delivered.
- A listener's `onEvent` and a task's `update` are logged as the listeners invoked and the task
  calls made.
- The WebGL context is the `Shaders.GL` class. Its constants fix the outcome of each query, and it
  records the live handles and the log of calls made.

## Model

| member | source | states |
|---|---|---|
| Options.FromNullable | src/base/Option.ts:12-18 | `Option(v)` is empty exactly when `v` is `null` or `undefined`, and otherwise holds `v` |
| Options.Option.Get | src/base/Option.ts:55-112 | `get` returns exactly on `Some`, with the value, and otherwise throws `NoSuchElement` |
| Options.Option.GetOrElse | src/base/Option.ts:59-116 | On `Some` the result is what `get` returns; on `None` it is the supplier's result |
| Options.Option.OrNull | src/base/Option.ts:63-119 | The factory turns the result back into the option, and the result is never `undefined` |
| Options.Option.OrUndefined | src/base/Option.ts:67-124 | The factory turns the result back into the option, and the result is never `null` |
| Options.Option.OrElse | src/base/Option.ts:71-128 | A `Some` is kept; on `None` the alternative is returned |
| Options.Option.Fold | src/base/Option.ts:75-132 | `fold` equals `map` followed by `getOrElse` |
| Options.Option.ForEach | src/base/Option.ts:79-136 | The callback runs once, on the single element of `toArray`, on `Some`, and not at all on `None` |
| Options.Option.Filter | src/base/Option.ts:83-140 | The result is non-empty iff the option is and the predicate holds, and then it is the option itself |
| Options.Option.FlatMap | src/base/Option.ts:87-144 | `None` stays empty; on `Some` the result is the callback's |
| Options.Option.Map | src/base/Option.ts:91-148 | Emptiness is kept, and a value becomes the callback's result on it |
| Options.Option.ToArray | src/base/Option.ts:95-152 | At most one element, none exactly on `None`, and the element is the held value |
| Options.NullableRoundTrip | src/base/Option.ts:63-124 | Passing the result of `orNull` or `orUndefined` back through the factory gives the option back; on `Some`, both return the value |
| Options.GetSpec | src/base/Option.ts:55-112 | `get` returns `v` exactly on `Some(v)` and throws `NoSuchElement` exactly on `None` |
| Options.GetOrElseSpec | src/base/Option.ts:59-116 | On `Some`, `getOrElse` returns the value whatever the supplier; on `None` it returns the supplier's result |
| Options.GetOrElseScenario | src/base/Option.ts:12-18 | `Option(null)` and `Option(undefined)` fall back under `getOrElse`; `Option(7)` does not |
| Options.IsEmptyIsNotNonEmpty | src/base/Option.ts:47-153 | `isEmpty` is the negation of `nonEmpty`; `toArray` has one element (the value) on `Some` and none on `None` |
| Options.FoldAndOrElseSpec | src/base/Option.ts:71-132 | `fold` picks the value arm on `Some` and the empty arm on `None`; `orElse` keeps a `Some` and calls the alternative on `None` |
| Options.FilterSpec | src/base/Option.ts:83-140 | `filter` yields `Some(v)` iff the option is `Some(v)` and the predicate holds; filtering twice is filtering once |
| Options.MapFlatMapOnNone | src/base/Option.ts:142-148 | `map` and `flatMap` on `None` give `None` |
| Options.MapIdentity | src/base/Option.ts:91-93 | Mapping the identity changes nothing |
| Options.MapComposition | src/base/Option.ts:91-93 | Mapping `f` and then `g` is mapping their composition |
| Options.MapIsFlatMapOfSome | src/base/Option.ts:87-93 | `map f` equals `flatMap` of `Some` after `f` |
| Options.FlatMapLeftIdentity | src/base/Option.ts:87-89 | `Some(v).flatMap(f) == f(v)` |
| Options.FlatMapRightIdentity | src/base/Option.ts:87-145 | `flatMap(Some)` is the identity |
| Options.FlatMapAssociative | src/base/Option.ts:87-145 | `flatMap` is associative |
| Options.ForEachVisitsToArray | src/base/Option.ts:79-152 | `forEach` calls back once with the value on `Some` and never on `None`, exactly the elements of `toArray` |
| Eithers.ExactlyOneSide | src/base/Either.ts:40-95 | Exactly one of `isLeft` and `isRight` holds |
| Eithers.SwapInvolution | src/base/Either.ts:72-123 | `swap` exchanges the sides and undoes itself |
| Eithers.MapFlatMapSpec | src/base/Either.ts:64-119 | `map`/`flatMap` keep a `Left` and apply the callback to a `Right` value |
| Eithers.MapIdentity | src/base/Either.ts:68-70 | Mapping the identity changes nothing |
| Eithers.FlatMapRightIdentity | src/base/Either.ts:64-115 | `flatMap(Right)` is the identity |
| Eithers.FlatMapAssociative | src/base/Either.ts:64-115 | `flatMap` is associative |
| Eithers.FilterOrElseSpec | src/base/Either.ts:60-111 | `filterOrElse` keeps a `Left` and a passing `Right`, and turns a failing `Right` into `Left(zero())` |
| Eithers.ToOptionSpec | src/base/Either.ts:48-127 | `toOption` is `Some` exactly on `Right` and agrees with `getOrElse`; `getOrElse` falls back exactly on `Left` |
| Eithers.FoldSpec | src/base/Either.ts:52-103 | `fold` applies the left arm to a `Left` and the right arm to a `Right`; swapping the sides and the arms gives the same result |
| Eithers.Either.GetOrElse | src/base/Either.ts:48-99 | `getOrElse` agrees with `toOption().getOrElse` |
| Eithers.Either.Fold | src/base/Either.ts:52-103 | The left callback is applied to a `Left` value and the right one to a `Right` value |
| Eithers.Either.ForEach | src/base/Either.ts:56-107 | `forEach` agrees with `toOption().forEach` |
| Eithers.Either.FilterOrElse | src/base/Either.ts:60-111 | The right side is filtered as `Option.filter` does; a `Left` is kept, and a rejected `Right` becomes `Left(zero())` |
| Eithers.Either.FlatMap | src/base/Either.ts:64-115 | A `Left` is kept; a `Right` value goes to the callback |
| Eithers.Either.Map | src/base/Either.ts:68-119 | The right side is mapped as `Option.map` does, and a `Left` is kept |
| Eithers.Either.Swap | src/base/Either.ts:72-123 | The sides are exchanged with their values |
| Eithers.Either.ToOption | src/base/Either.ts:76-127 | `Some` exactly on `Right`, holding the right value |
| Tries.TryOf | src/base/Try.ts:12-18 | `Try(f)` is `Success` exactly when `f` returns, holding the return value, and otherwise `Failure` holding what `f` threw |
| Tries.TryOfGetRoundTrip | src/base/Try.ts:12-18 | `Try(f).get()` returns or throws exactly as `f` does |
| Tries.RecoverOnSuccess | src/base/Try.ts:94-100 | `recover` and `recoverWith` leave a `Success` as it is |
| Tries.RecoverOnFailure | src/base/Try.ts:159-165 | On `Failure(e)`, `recover(f)` is `Try(() => f(e))`, so a throwing handler gives a `Failure` with its error; `recoverWith(f)` is `f(e)` |
| Tries.RecoverOfFactory | src/base/Try.ts:12-161 | `Try(() => throw E).recover(f)` is `Try(() => f(E))`; recovering a successful factory changes nothing |
| Tries.MapFlatMapSpec | src/base/Try.ts:86-157 | `map`/`flatMap` keep a `Failure`'s error; on `Success`, `map` wraps the callback's result, and an exception it throws escapes uncaught |
| Tries.MapIsFactoryWhenNoThrow | src/base/Try.ts:90-92 | For a callback that returns, `map` equals the factory applied to it |
| Tries.MapIdentity | src/base/Try.ts:90-92 | Mapping the identity changes nothing |
| Tries.FlatMapLeftIdentity | src/base/Try.ts:86-88 | `Success(v).flatMap(f) == f(v)` |
| Tries.FlatMapRightIdentity | src/base/Try.ts:86-153 | `flatMap(Success)` is the identity |
| Tries.FilterSpec | src/base/Try.ts:82-149 | `filter` keeps a `Failure` and a passing `Success`, turns a failing `Success` into a `Failure`, and lets the predicate's exception escape |
| Tries.GetAndFallbackSpec | src/base/Try.ts:58-133 | `get` rethrows the stored error; `getOrElse` and `orElse` use the fallback exactly on `Failure` |
| Tries.FoldTransformToOptionSpec | src/base/Try.ts:70-169 | `fold` and `transform` pick the arm by case; `toOption` is `Some` exactly on `Success`, and then holds its value |
| Tries.IsSuccessIsNotFailure | src/base/Try.ts:50-121 | Exactly one of `isSuccess` and `isFailure` holds |
| Tries.Try.Get | src/base/Try.ts:58-125 | `get` returns exactly on `Success`, and the factory applied to its outcome gives the `Try` back |
| Tries.Try.GetOrElse | src/base/Try.ts:62-129 | On `Success` it is what `get` returns; on `Failure` it is the fallback's outcome |
| Tries.Try.OrElse | src/base/Try.ts:66-133 | A `Success` is kept; on `Failure` the alternative's outcome is returned |
| Tries.Try.Fold | src/base/Try.ts:70-137 | The success callback gets the value and the failure callback the error |
| Tries.Try.Transform | src/base/Try.ts:74-141 | `transform` is `fold` with callbacks that give a `Try` |
| Tries.Try.ForEach | src/base/Try.ts:78-145 | The callback runs on a `Success` value; a `Failure` leaves the caller's state as it is |
| Tries.Try.Filter | src/base/Try.ts:82-149 | A `Failure` is kept; a `Success` survives only if the predicate returned true; the call throws exactly when the predicate throws on a `Success` |
| Tries.Try.FlatMap | src/base/Try.ts:86-153 | A `Failure` keeps its error; a `Success` value goes to the callback |
| Tries.Try.Map | src/base/Try.ts:90-157 | A `Failure` keeps its error; on `Success` the call returns iff the callback returns, and a `Success` result holds the callback's value |
| Tries.Try.Recover | src/base/Try.ts:94-161 | A `Success` is kept; on `Failure` the result succeeds iff the handler returns, and its `get` reproduces the handler's outcome |
| Tries.Try.RecoverWith | src/base/Try.ts:98-165 | A `Success` is kept; on `Failure` the handler's outcome is returned |
| Tries.Try.ToOption | src/base/Try.ts:102-169 | `Some` exactly on `Success`, holding what `get` returns |
| ArrayLists.IndexOf | src/base/ArrayList.ts:55 | `indexOf` is -1 exactly when the value is absent; otherwise it is a position holding the value, with no earlier occurrence |
| ArrayLists.SplicedInRange | src/base/ArrayList.ts:50-52 | `remove(i)` with `0 <= i < length` drops element `i` and shifts the later ones down by one |
| ArrayLists.SplicedOutOfRange | src/base/ArrayList.ts:50-52 | `remove(i)` at or past the end is a no-op; `remove(-k)` with `k <= length` removes the element `k` from the end; a start before the beginning is clamped to 0 and removes the first element |
| ArrayLists.SplicedTail | src/base/ArrayList.ts:50-52 | Removing index `j+1` keeps the head and removes index `j` of the tail |
| ArrayLists.RemoveValueIsRemoveFirst | src/base/ArrayList.ts:54-59 | `indexOf` followed by `splice` removes exactly the first occurrence, and changes nothing when the value is absent |
| ArrayLists.RemoveFirstMultiset | src/base/ArrayList.ts:54-59 | `removeValue` takes one copy of the value out of the list's multiset, and shortens the list by one exactly when the value is present |
| ArrayLists.RemoveFirstAppended | src/base/ArrayList.ts:46-59 | Removing a value just pushed onto a list that did not hold it gives the list back |
| ArrayLists.ArrayListIterator.constructor | src/base/ArrayList.ts:9-12 | A new iterator starts at index 0 over the given list |
| ArrayLists.ArrayListIterator.Next | src/base/ArrayList.ts:14-19 | `next` returns the current element and advances; at the end it throws `NoSuchElement` and does not move |
| ArrayLists.ArrayListIterator.HasNext | src/base/ArrayList.ts:21-23 | `hasNext` holds exactly when reading the live list at the cursor yields an element rather than `undefined` |
| ArrayLists.ArrayList.constructor | src/base/ArrayList.ts:30-32 | A new list holds exactly the given items, in order |
| ArrayLists.ArrayList.Iterator | src/base/ArrayList.ts:34-36 | A fresh iterator at index 0 over this list |
| ArrayLists.ArrayList.Set | src/base/ArrayList.ts:38-40 | `set` replaces one element; `get` then returns the value there and is unchanged elsewhere |
| ArrayLists.ArrayList.Get | src/base/ArrayList.ts:42-44 | `get` is never `null`: in range it is the element at that index, and out of range it is `undefined` |
| ArrayLists.ArrayList.PushBack | src/base/ArrayList.ts:46-48 | `pushBack` appends the value at the end and keeps every earlier element |
| ArrayLists.ArrayList.Remove | src/base/ArrayList.ts:50-52 | `remove` leaves the list as `splice(idx, 1)` does |
| ArrayLists.ArrayList.RemoveValue | src/base/ArrayList.ts:54-59 | `removeValue` removes the first occurrence of the value, if any |
| ArrayLists.ArrayList.ForEach | src/base/ArrayList.ts:61-66 | The iterator loop visits every element exactly once, in index order |
| EventManagers.EventManager.constructor | src/core/EventManager.ts:22-24 | A new manager has no registered names |
| EventManagers.EventManager.AddEventListener | src/core/EventManager.ts:26-33 | The listener is appended to the name's list; a new name gets a new list `[listener]`; duplicates are kept; other names are untouched |
| EventManagers.EventManager.RemoveEventListener | src/core/EventManager.ts:35-39 | The first occurrence of the listener is dropped from that name's list; an unknown name is a no-op; the name stays registered |
| EventManagers.EventManager.TriggerEvent | src/core/EventManager.ts:41-48 | Exactly the listeners registered under the event's name are invoked, in registration order; an unknown name invokes nobody |
| EventManagers.DuplicateSubscription | src/core/EventManager.ts:26-48 | For any name, a listener subscribed twice more is invoked twice more per dispatch, after the listeners already registered |
| EventManagers.UnsubscribeLast | src/core/EventManager.ts:26-48 | For any name, subscribing and then unsubscribing a listener leaves the name mapped, to the earlier list with the first occurrence of the listener removed; when the listener was not subscribed before, dispatch invokes exactly the earlier listeners |
| Kernels.Advance | src/core/Kernel.ts:18-19 | `idx += 1; idx %= length` on an in-range cursor moves to the next slot, wrapping to 0 after the last |
| Kernels.Cursor | src/core/Kernel.ts:18-19 | After any number of updates the cursor is a valid slot |
| Kernels.CursorAdvance | src/core/Kernel.ts:18-19 | `d < n` further updates move the cursor `d` slots forward modulo `n` |
| Kernels.CursorPeriod | src/core/Kernel.ts:18-19 | After `n` updates the cursor is back on the same slot |
| Kernels.Ring | src/core/Kernel.ts:10-19 | The buffer always has `size` slots |
| Kernels.RingSlot | src/core/Kernel.ts:17-19 | A sample stays in its slot until `n` later samples have been written |
| Kernels.RingUnwritten | src/core/Kernel.ts:10 | A slot the cursor has not reached yet still holds the seed 0.001 |
| Kernels.SeedSum | src/core/Kernel.ts:10 | A fresh buffer of `n` slots sums to `n * 0.001` |
| Kernels.SumFront | src/core/Kernel.ts:24-27 | The accumulated sum splits off its first element |
| Kernels.SumUpdate | src/core/Kernel.ts:17 | Overwriting one slot changes the sum by the new value minus the old one |
| Kernels.RingStep | src/core/Kernel.ts:17-19 | Writing one sample changes the buffer sum by the sample minus the slot it overwrites |
| Kernels.EvictedSlot | src/core/Kernel.ts:10-19 | The slot about to be overwritten holds the seed while fewer than `n` samples exist, and otherwise the sample written `n` updates ago |
| Kernels.RingSum | src/core/Kernel.ts:10-28 | The buffer sums to the last `n` samples plus one seed for each slot not yet overwritten |
| Kernels.SmoothedDelta | src/core/Kernel.ts:23-28 | With `k < n` samples, the delta is (sum of samples + (n-k) * 0.001) / n; from `n` samples on, it is the mean of the last `n` |
| Kernels.ColdStart | src/core/Kernel.ts:10-28 | Before any sample the delta is the seed, so it is never zero |
| Kernels.TimeHistory.constructor | src/core/Kernel.ts:9-13 | `size` slots, all 0.001, cursor 0, previous time `now` |
| Kernels.TimeHistory.Update | src/core/Kernel.ts:15-21 | `now - prevTime` is written at the cursor, the cursor advances modulo the size, and `prevTime` becomes `now`; the ring invariant is kept |
| Kernels.TimeHistory.Get | src/core/Kernel.ts:23-29 | The accumulated mean of all slots, which equals the smoothed delta of every sample recorded so far |
| Kernels.Kernel.constructor | src/core/Kernel.ts:39-44 | A new kernel is disabled, has no tasks and an empty history whose previous time is the clock reading `now`, and has requested no frame |
| Kernels.Kernel.AddTask | src/core/Kernel.ts:46-48 | The task is appended; nothing else changes |
| Kernels.Kernel.Start | src/core/Kernel.ts:50-55 | The kernel becomes enabled, and a frame is requested only when it was stopped |
| Kernels.Kernel.Stop | src/core/Kernel.ts:57-59 | The kernel becomes disabled; no frame is requested or cancelled |
| Kernels.Dispatch | src/core/Kernel.ts:65-67 | Every task is called exactly once, in list order, with the same delta |
| Kernels.Kernel.Tick | src/core/Kernel.ts:61-72 | One frame records the sample `now - previous time`, makes `now` the previous time, calls every task once in order with the smoothed delta, and requests the next frame exactly when still enabled |
| Kernels.StartTwice | src/core/Kernel.ts:50-55 | Starting twice requests a single frame |
| Kernels.StopEndsChain | src/core/Kernel.ts:57-72 | After a stop, the pending frame still records `now` minus the previous time as its sample and calls every unchanged task once, in order, with the smoothed delta; it then requests no other frame |
| Kernels.RestartBeforeFrame | src/core/Kernel.ts:50-59 | `start`, `stop`, `start` before the first frame arrives leaves two frame chains pending |
| Kernels.TwoFrames | src/core/Kernel.ts:15-21 | Two frames delivered at `t1` and `t2` record exactly the samples `t1 - previous time` and `t2 - t1`, and the second delta is their smoothed mean |
| Contexts.FirstBindingFound | src/base/Context.ts:13-15 | A lookup finds `v` iff some store in the chain binds the key to `v` and no nearer store binds the key |
| Contexts.FirstBindingMissing | src/base/Context.ts:13-15 | A lookup finds nothing iff no store in the chain binds the key |
| Contexts.Context.constructor | src/base/Context.ts:8-11 | A new context has no bindings and the given parent |
| Contexts.Context.Get | src/base/Context.ts:13-15 | `get` is the nearest usable binding along the parent chain: its own binding unless it is missing, `null` or `undefined`, else the parent's |
| Contexts.Context.Set | src/base/Context.ts:17-19 | `set` rebinds the key here only; `get` then returns the value, other keys and the parent's lookups are unchanged |
| Contexts.Shadowing | src/base/Context.ts:13-19 | A child binding shadows the parent's binding of the same key |
| Contexts.NullFallsThrough | src/base/Context.ts:13-19 | A `null` stored in the child falls through to the parent's binding |
| Shaders.CompileOutcome | src/renderer/Shader.ts:16-28 | A shader is kept exactly when it was created and compiled; otherwise the message is the creation error, or the info log (with its default) |
| Shaders.CompileCalls | src/renderer/Shader.ts:16-28 | After a null `createShader`, no further GL call is made for that shader; the handle is deleted exactly when compilation failed; no program is requested |
| Shaders.StageReport | src/renderer/Shader.ts:73-74 | A stage reports its error, or `Success` |
| Shaders.CompileReport | src/renderer/Shader.ts:72-74 | The failure message starts with the compilation header and ends with the fragment stage's report |
| Shaders.LinkOutcome | src/renderer/Shader.ts:56-76 | As written: the program is kept (as the new handle) iff both stages compiled, a program was created and `linkProgram` returned something truthy |
| Shaders.CheckedLinkOutcome | src/renderer/Shader.ts:56-76 | Corrected: the program is kept (as the new handle) iff both stages compiled, a program was created and `LINK_STATUS` is true |
| Shaders.ProgramOnlyAfterBothCompiled | src/renderer/Shader.ts:56-76 | A program is requested iff both shaders compiled; otherwise the stored message reports both stages |
| Shaders.ProgramFailures | src/renderer/Shader.ts:57-69 | A null `createProgram` gives `Left("Error requesting new WebGLProgram")`; a failed link deletes the program and stores its info log |
| Shaders.FalsyLinkAlwaysLeft | src/renderer/Shader.ts:62-69 | When `linkProgram` returns a falsy value, the program field is always `Left` |
| Shaders.LinkReturnDiscardsProgram | src/renderer/Shader.ts:62-69 | With a successful link on a WebGL context, the code as written deletes the program and stores `Left`, while the checked version keeps it |
| Shaders.CheckedLinkSpec | src/renderer/Shader.ts:56-76 | With `LINK_STATUS` checked, a program is kept iff both shaders compiled, a program was created and it linked; a program not kept is deleted |
| Shaders.CompileHandle | src/renderer/Shader.ts:18-28 | On a new handle: attach the source and compile; keep the handle on success, otherwise read the info log, delete the handle and report the log |
| Shaders.CrShader.constructor | src/renderer/Shader.ts:14-29 | The stored outcome, the exact calls made and the live handles after compiling one shader; a held shader is a live handle of the requested kind |
| Shaders.CrShader.Get | src/renderer/Shader.ts:31-33 | `get` of a valid shader is either an error or a live handle of the requested kind |
| Shaders.CrShader.Release | src/renderer/Shader.ts:35-40 | A held shader is deleted once and becomes `Left("Deleted")`; without one, nothing happens; the rest of the GL state is unchanged, so the shader stays valid |
| Shaders.CompileStages | src/renderer/Shader.ts:52-53 | The vertex shader is compiled first and the fragment shader next, even when the first failed |
| Shaders.Link | src/renderer/Shader.ts:56-76 | Link step as written: the program outcome, the calls made and the live handles |
| Shaders.CheckedLink | src/renderer/Shader.ts:56-76 | Link step with `LINK_STATUS` checked: the program outcome, the calls made and the live handles |
| Shaders.Shader.constructor | src/renderer/Shader.ts:50-77 | The whole construction as written; compiled shaders stay live whether or not a program results |
| Shaders.Shader.Checked | src/renderer/Shader.ts:50-77 | The corrected construction, which reads link success from `LINK_STATUS` |
| Shaders.Shader.Release | src/renderer/Shader.ts:79-84 | Only the program is deleted (once, if held), and it becomes `Left("Deleted")`; the shaders are never deleted; the handle counter and the shader kinds and sources are unchanged, so the GL context stays valid |
| Shaders.ReleaseTwice | src/renderer/Shader.ts:35-40 | Releasing twice deletes the handle at most once |
| Matrices.TransposedAt | src/math/Matrix.ts:32-39 | The element at (row, col) of the transposed layout is the original's (col, row), that is, the row-major input's `4*row + col` |
| Matrices.TransposedInvolution | src/math/Matrix.ts:148-160 | Transposing twice gives the original |
| Matrices.TransposedSlots | src/math/Matrix.ts:60-83 | The layout slot by slot, as `init` lists it |
| Matrices.TransposedRows | src/math/Matrix.ts:60-83 | Storage whose columns hold the given rows equals the transposed row listing |
| Matrices.Exchanged | src/math/Matrix.ts:162-166 | The two slots trade values and every other slot keeps its value |
| Matrices.DiagonalSwaps | src/math/Matrix.ts:148-154 | The six exchanges across the diagonal together transpose the storage |
| Matrices.Swap | src/math/Matrix.ts:162-166 | Two slots are exchanged, also within one array; when both name the same slot, nothing changes |
| Matrices.Copy | src/math/Matrix.ts:49-58 | `concat()` gives a fresh array with the same elements |
| Matrices.Matrix.constructor | src/math/Matrix.ts:31-41 | Without a matrix, 16 zeros; otherwise `get(i, j)` is the input's `offset + 4*i + j` (row-major in, column-major stored) |
| Matrices.Matrix.Set | src/math/Matrix.ts:85-87 | `get(r, c)` then returns the value, and the other 15 cells are unchanged |
| Matrices.Matrix.Get | src/math/Matrix.ts:89-91 | `get(row, col)` is entry `4*row + col` of the storage read as a row-major listing |
| Matrices.Matrix.Init | src/math/Matrix.ts:60-83 | `get(r, c)` becomes the argument `n_rc`, and `init` returns the matrix itself |
| Matrices.Matrix.Clone | src/math/Matrix.ts:49-53 | A new matrix with its own copy of the elements |
| Matrices.Matrix.CopyFrom | src/math/Matrix.ts:55-58 | This matrix gets a private copy of the other's elements, and the matrix itself is returned |
| Matrices.Matrix.Add | src/math/Matrix.ts:93-111 | Element-wise sum in place, also when adding the matrix to itself |
| Matrices.Matrix.Sub | src/math/Matrix.ts:118-136 | Element-wise difference in place |
| Matrices.Matrix.ConstAdd | src/math/Matrix.ts:113-116 | The sum, as a new matrix; neither operand changes |
| Matrices.Matrix.ConstSub | src/math/Matrix.ts:138-141 | The difference, as a new matrix; neither operand changes |
| Matrices.Matrix.Mul | src/math/Matrix.ts:143-146 | Returns this matrix and changes nothing (the code is not implemented) |
| Matrices.Matrix.Transpose | src/math/Matrix.ts:148-156 | The six swaps leave `get(i, j)` equal to the old `get(j, i)` |
| Matrices.Matrix.ConstTranspose | src/math/Matrix.ts:158-160 | Reading the storage again as row-major input gives the transpose, as a new matrix; the receiver is unchanged |
| Matrices.FromMatrix | src/math/Matrix.ts:43-47 | A new matrix with a copy of the source's elements |
| Matrices.TransposeTwice | src/math/Matrix.ts:148-166 | Two in-place transposes restore every element |
| Coords.Coord4D.constructor | src/math/Coord4D.ts:9-14 | Each omitted component defaults to 0 |
| Coords.Coord4D.Getter | src/math/Coord4D.ts:16-29 | Index 0..3 selects x, y, z, w; any other index throws `RangeError("The index '<idx>' is out of the range [0,3].")` |
| Coords.Coord4D.Setter | src/math/Coord4D.ts:31-48 | Index 0..3 writes that component only, and `getter` then returns the value; out of range it throws and changes nothing |

## Findings

| source | as written | input that shows it | evidently intended | confidence | as-written member | corrected member |
|---|---|---|---|---|---|---|
| src/renderer/Shader.ts:62-64 | Link success is the truthiness of the value returned by a second `gl.linkProgram(p)`. WebGL's `linkProgram` returns `undefined`, so a successful link is still deleted and reported as an error | Both shaders compile, `createProgram` returns a handle and the link succeeds: `linkProgram` returns `undefined` and `LINK_STATUS` is true (`Shaders.LinkReturnDiscardsProgram`) | Link once, then test `gl.getProgramParameter(p, gl.LINK_STATUS)` | high, not executed | Shaders.Link | Shaders.CheckedLink |

## Left out

- Option and Either callbacks are pure functions. The code catches nothing there, so an exception thrown by a callback would only propagate. `ForEach` callbacks are state transformers `(S, T) -> S`.
- Exceptions thrown by event listeners and kernel tasks are not modelled. Listeners and tasks are opaque ids, and their calls are only logged.
- A listener that subscribes or unsubscribes during `triggerEvent` is not modelled. The iterator reads the live array, but the model's dispatch does not let a listener re-enter the manager.
- Kernel.Tick: a task cannot re-enter the kernel. A frame is delivered only when one was requested (`pending > 0`).
- The Kernel constructor's unused `eventManager` parameter is not modelled.
- `performance.now` and `requestAnimationFrame` become a `now` parameter and a pending-frame counter.
- Numbers are `real`, with no floating-point rounding. This affects the `TimeHistory` mean, the Matrix arithmetic and the `Coord4D` components.
- Coords.Coord4D.Getter and Coords.Coord4D.Setter take integer indices. A fractional index such as 1.5 falls to the `RangeError` branch in the code, but its printed form is not modelled.
- Coords.Coord4D.Getter and Coords.Coord4D.Setter: JavaScript prints an index of magnitude 10^21 or more in exponent form (`1e+21`), so the `RangeError` message is modelled only for indices below that magnitude; the model prints every digit.
- JavaScript out-of-range array writes are excluded by preconditions:
  - ArrayLists.ArrayList.Set requires an in-range index. JavaScript would grow the array with holes.
  - Matrices.Matrix.Get and Matrices.Matrix.Set require row and column in 0..3.
  - Matrices.Matrix.constructor requires 16 elements from `offset` on. JavaScript would read `undefined`.
  - Kernels.TimeHistory.constructor and Kernels.Kernel.constructor require a size above 0. With size 0, `new Array(0).fill(0.001)` is empty and the first write grows it to one slot, so the kernel smooths over the latest sample only; a `get` before any update would divide 0 by 0. Size 0 is not modelled.
- ArrayLists.ArrayList.Remove and ArrayLists.ArrayList.Get take integer indices. The code accepts any number. JavaScript's `splice` truncates a fractional start toward zero and treats `NaN` as 0, so `remove(1.5)` removes element 1 and `remove(NaN)` removes element 0. Indexing with a fractional or `NaN` index reads `undefined`, so `get(1.5)` returns `undefined`. None of these inputs exists in the model.
- `ArrayList.get` out of range returns `undefined`. That is modelled, and no precondition is needed.
- `throw` of a value that is not an `Error` is not modelled. Error kinds form the datatype `Exceptions.Error`.
- Real WebGL is not modelled. `Shaders.GL` fixes each query's answer per shader kind and source, or per context, and hands out handles from a counter.
- Two behaviours of the code that a reader might not expect:
  - When one stage fails, the `Shader` constructor stores `Left` and deletes neither compiled shader.
  - `Shader.release` deletes only the program, so the shader handles stay live.
- The DOM and renderer bootstrap (`Container`, `Renderer`) was left out as glue code. So were the floating-point vector types (`Vector`, `Point`, `Ray`) and the bundled copy of the sources under `dist/`.
