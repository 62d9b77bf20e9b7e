# Verified models of trpc-cpp

A Dafny model of the concurrent and stateful core of trpc-cpp, with proofs of what that core promises: the fiber
reader/writer lock, futures and promises with their combinators, the plugin lifecycle, the filter chains around a unary
call, the sequence lock, the blocking containers and the sampled series. `dafny verify dfyconfig.toml` covers the whole project.

| file | models |
|---|---|
| SharedMutex.dfy | `FiberSharedMutex`, any number of threads, one step per atomic operation or lock region |
| FutureCore.dfy | the race of `Then` with any number of `SetValue`/`SetException` on one `FutureImpl` |
| FutureChain.dfy | nests of `Then` run by the machine of cells, continuations and `ChainFuture`, against sequential evaluation |
| FutureCompletion.dfy | exactly when such a nest completes |
| Combinators.dfy | `WhenAll`, `WhenAny`, `WhenAnyWithoutException` |
| DoUntil.dfy | `DoUntil` and `DoFor` against the plain loops |
| Handles.dfy | `Promise` and `Future` handles on the reference-counted `FutureImpl` |
| Dfs.dfy, Plugins.dfy | the memoised walks of `TrpcPlugin` over dependencies and over the reverse index |
| Filters.dfy, FilterChains.dfy | filter queues, registration, and running the filters of a point |
| UnaryCall.dfy | the blocking and the future form of a unary call with its two filter levels |
| SeqLock.dfy | `FiberSeqLock`, words read and written one step at a time |
| Containers.dfy | `FiberBlockingBoundedQueue`, `FiberBlockingNoncontiguousBuffer` |
| Series.dfy | `SeriesSamples` and its operations |
| Common.dfy | what several models share |

## Reading the model

- Protocols are transition systems. A run is any sequence of states in which each comes from the one before by a step of
  some thread; a theorem about every run or every reachable state covers every interleaving.
- Atomics are sequentially consistent, callers keep to the lock/unlock discipline, and a mutex or a condition variable does
  what its standard contract says, spurious wakeups included.
- Objects that the code updates in place are classes; each method is proved against a specification function, and the
  lemmas are about that function.
- A blocking operation of a container is modelled from the moment its wait is over, so its wait predicate is its
  precondition; the `try` form, which is also what a wait with a deadline does when it ends, has none.
- Filter hooks, the codec, the timeout and the transport answer as arbitrary functions of everything that happened before;
  hooks also see whether the context's status is OK, and may change it.
- An activity of a chain that would use a leaf future a second time stops there. Nothing in the code stops it: `Then` leaves
  the handle in place, but the impl is consumed by then and what is registered on it is never scheduled; through a handle
  that was moved away it is a null pointer that is dereferenced.
- A failed assertion of the code ends the program; an operation that meets one reports it instead of going on.
- The client and the server filter code are twins but for the 0x7f mask; one model with the mask stands for both.
- `InitPlugin`, `StartPlugin`, `StopPlugin` and `DestroyPlugin` differ only in names, flag and call; one method with the
  phase as a parameter stands for the four. The order in which a hash map is iterated is a parameter, and so arbitrary.
- Integers are unbounded except where the width decides something: the 32-bit counters of the combinators, of the sequence
  lock and of the shared mutex, the 8-bit saved filter index, and the 64-bit sizes of the containers.

## Where the code does not keep a promise for all inputs

The members named give the exact condition of each, and most of them a concrete run or input that fails.

- The checks of the shared mutex hold in every run of n threads if and only if n < kMaxReaders (`ChecksHoldIff`).
- A chain whose sequential evaluation ends completes if and only if that uses each leaf future at most once
  (`EveryRunCompletes`); a callback that returns the future it was registered on never does (`LeafTwiceNeverResolves`).
- `WhenAll` resolves only after all inputs if and only if there are at most 2^32 of them (`WhenAllRightIff`), and
  `WhenAnyWithoutException` resolves at all if and only if an input is ready or there are fewer than 2^32 (`ResolvesIff`,
  `AlwaysResolvesIff`); otherwise every run goes on to its end without a result (`NeverResolves`).
- Stopping ends, and stops plugins before what they depend on in whatever order the table is iterated, if and only if each
  plugin leads to its dependents through the names they declare (`StopsInReverseIff`). A dependency declared as name#type is
  filed under a string that no lookup asks for (`TypedNameBreaksOrder`), unless a plugin has that string as its name: then
  no depth of recursion may be enough (`StopNeverReturns`). To end means that some depth is enough, and where nothing makes
  the walk give up that is so exactly on acyclic graphs (`EndsIff`).
- Post queues stay mirror images of pre queues, over any history of registrations, if and only if each accepted filter asks
  for each pre point as often as for its post point (`MirrorIff`, `HistoryMirroredIff`); `CheckMatchPoints` lets the points
  0, 0, 1 pass (`RepeatedPointBreaksMirror`).
- The post phase undoes the pre phase if and only if a filter rejected or the context held no index, or one that stands for
  all filters, from an earlier call (`PostMirrorsPreIff`).
- A call aborts if and only if a filter rejects whose position in its chain is above 127, the largest index that can be
  saved (`RunPre`, `UnaryInvoke`, `AsyncUnaryInvoke`).
- Reads under the sequence lock are never torn if and only if the counter, which has no initialiser, starts even and fewer
  than 2^31 write sections complete meanwhile (`NoTornIff`).
- The queue and the buffer keep to their capacity after a push if and only if the sizes do not overflow 64 bits (`Push`,
  `Append`); over a whole `AppendAlways` the room never underflows if and only if no `SetCapacity`, which does not take the
  mutex, goes below the content right after a test for room (`RoomRightIff`), and with calm others that is also exactly when
  the content stays within the capacity (`AlwaysFitsIff`).
- Moving a `Future` onto itself drops it (`AssignFuture`).

## Model

| member | source | states |
|---|---|---|
| SharedMutex.MutualExclusion | trpc/coroutine/fiber_shared_mutex.cc:15-116 | in every reachable state of any number of readers and writers below kMaxReaders, try variants included, a writer that holds the lock holds it alone |
| SharedMutex.CountingLaw | trpc/coroutine/fiber_shared_mutex.cc:15-99 | the quota is kMaxReaders, if no writer is announced, less the readers in flight; with a writer announced, pending and its share not yet added are the holders, the grants not yet taken and the readers in mid-unlock; grants are 0 when unlock overwrites them, never exceed the waiting readers, and nothing leaves 32 bits |
| SharedMutex.NoCheckFires | trpc/coroutine/fiber_shared_mutex.cc:15-99 | no TRPC_CHECK of any operation fires in any reachable state |
| SharedMutex.ChecksHoldIff | trpc/coroutine/fiber_shared_mutex.cc:16-20 | the checks hold in all runs of n threads if and only if n < kMaxReaders |
| SharedMutex.NoLostWakeup | trpc/coroutine/fiber_shared_mutex.cc:59-116 | a sleeper whose predicate came true is about to be notified: by the unlocking writer, or by the last counted reader |
| SharedMutex.HaltedMeansIdle | trpc/coroutine/fiber_shared_mutex.cc:15-116 | if no operation begun can go on and nobody holds the lock, no operation is left: nobody waits for ever |
| SharedMutex.Progress | trpc/coroutine/fiber_shared_mutex.cc:15-116 | from every reachable state operations begun take at most n(n+6) further steps, in any order, and four more for each spurious wakeup or compare-exchange failure; when they can take none, only lock and lock_shared are left, each waiting for a holder or for a writer before it, and with no holder everybody is done |
| SharedMutex.HaltedMeansWaiting | trpc/coroutine/fiber_shared_mutex.cc:15-116 | if no operation begun can go on, those left are lock and lock_shared: a reader waits only for a writer that holds the lock or comes first, a writer only for such a writer or for a reader that holds it |
| SharedMutex.LockReturnsHolding | trpc/coroutine/fiber_shared_mutex.cc:47-66 | in every history a thread that called lock() is idle again only after it held the lock exclusively and called unlock() |
| SharedMutex.LockSharedReturnsHolding | trpc/coroutine/fiber_shared_mutex.cc:15-22 | a thread that called lock_shared() only after it held the lock in shared mode and called unlock_shared() |
| SharedMutex.UnlockLetsGo | trpc/coroutine/fiber_shared_mutex.cc:83-99 | after unlock() a thread is on its way out of it, or out, until it begins another operation |
| SharedMutex.UnlockSharedLetsGo | trpc/coroutine/fiber_shared_mutex.cc:36-45 | and so after unlock_shared() |
| SharedMutex.TryLockFails | trpc/coroutine/fiber_shared_mutex.cc:68-81 | try_lock returns without the lock only if writer_lock_ was owned when it was called or the quota was not kMaxReaders meanwhile |
| SharedMutex.TryLockSharedFails | trpc/coroutine/fiber_shared_mutex.cc:24-34 | try_lock_shared returns without the lock only if the quota was used up meanwhile |
| SharedMutex.GrantsUnderLock | trpc/coroutine/fiber_shared_mutex.cc:83-110 | newly_granted_readers_ changes only while nobody else owns wakeup_lock_ |
| SharedMutex.AloneSucceeds | trpc/coroutine/fiber_shared_mutex.cc:15-81 | run alone on a free lock, all four get it |
| SharedMutex.StepInv | trpc/coroutine/fiber_shared_mutex.cc:15-116 | every step of every thread keeps the invariant of counters, locks and sleepers |
| FutureCore.AtMostOnce | trpc/future/future.h:530-648 | however many threads resolve, the continuation is scheduled at most once, with an outcome that was set, after both sides are in; the assert of GetValue does not fire |
| FutureCore.ExactlyOnce | trpc/future/future.h:530-648 | once Then and every resolution begun, at least one, have returned it was scheduled exactly once, whichever came first |
| FutureCore.DeliversTheResult | trpc/future/future.h:602-648 | with one resolver, or several that agree, what is delivered is what it set |
| FutureCore.Delivers | trpc/future/future.h:530-648 | whatever has happened so far, the run goes on to its end, within eight steps for each thread, and the continuation was then scheduled exactly once, with the outcome if there is only one |
| FutureCore.DeliversOnce | trpc/future/future.h:602-648 | one Then and one resolution, in whatever order and however interleaved: the run ends, the continuation was scheduled once, with the outcome, and the future is neither ready nor failed any more |
| FutureCore.RunIsShort | trpc/future/future.h:530-648 | no run takes more than eight steps for each thread |
| Sequential.ThenIsAssociative | trpc/future/future.h:252-296 | (m.Then f).Then g and m.Then(x => f(x).Then g) have the same results, and end together |
| Sequential.ChainEnds | trpc/future/future.h:252-296 | a Then ends if its source does and, unless an exception skips the callback, what the callback returns does; and with what result |
| FutureChain.ResolvesToSequential | trpc/future/future.h:1332-1351 | for every nest of value and future callbacks, order of leaf resolutions and executor schedule, the outer future resolves only to what sequential evaluation gives |
| FutureChain.UnstuckHolds | trpc/future/future.h:252-388 | when nothing can happen any more and no activity is about to use a leaf future a second time, the outer future holds the sequential result |
| FutureCompletion.EveryRunCompletes | trpc/future/future.h:252-388 | if sequential evaluation ends, so does every run, within a bound that the expression gives; the outer future then holds the sequential result if and only if sequential evaluation uses each leaf future at most once, and stays unresolved otherwise |
| FutureCompletion.RunHalts | trpc/future/future.h:252-388 | every run goes on until nothing can happen any more |
| FutureCompletion.LeafTwiceNeverResolves | trpc/future/future.h:1332-1351 | a callback that returns the future it was registered on: sequential evaluation ends, but the run stops with the outer future unresolved |
| FutureCompletion.StepBalanced | trpc/future/future.h:530-648 | every step keeps: leaf futures moved and uses still to come are what sequential evaluation uses, and each unresolved promise has exactly one feeder |
| FutureCompletion.UnresolvedUpToRoot | trpc/future/future.h:1332-1351 | a promise of a chain that stays unresolved leaves the outer future unresolved |
| FutureChain.FuturesUsedOnce | trpc/future/future.h:530-648 | in every run whoever registers on a future or reads it is the first and only one to |
| FutureChain.NextInv | trpc/future/future.h:252-388 | every step keeps: cells agree with sequential evaluation, are used at most once, and every unresolved promise has someone to resolve it |
| WhenAll.WhenAllResolvesOnce | trpc/future/future_utility.h:305-331 | for every completion order, callbacks that run during registration included, the result is set once, after all inputs, slot i holding outcome i |
| WhenAll.WhenAllRightIff | trpc/future/future_utility.h:305-331 | that holds in all runs if and only if there are at most 2^32 inputs |
| WhenAll.GoesOn | trpc/future/future_utility.h:305-331 | every run goes on until all callbacks have returned |
| WhenAll.Completes | trpc/future/future_utility.h:305-331 | up to 2^32 inputs every run goes on to one that ends with all outcomes in order |
| WhenAny.TakesTheFirst | trpc/future/future_utility.h:341-370 | the result is the first completion, its value with its index in 32 bits or its exception, and the rest is ignored; without inputs it is the answer for none |
| WhenAny.Completes | trpc/future/future_utility.h:341-370 | every run goes on until all callbacks have returned, and the result was set exactly once by then |
| WhenAnyWithoutException.PrefersValues | trpc/future/future_utility.h:379-415 | a value only from the first ready input, with its index in 32 bits; an exception only if all inputs failed, and then one of theirs; at most once |
| WhenAnyWithoutException.ResolvesIff | trpc/future/future_utility.h:379-415 | when all callbacks are done it was resolved, once, if and only if an input was ready or there are fewer than 2^32 |
| WhenAnyWithoutException.AlwaysResolvesIff | trpc/future/future_utility.h:379-415 | all complete runs resolve it if and only if an input is ready or there are fewer than 2^32 |
| WhenAnyWithoutException.GoesOn | trpc/future/future_utility.h:379-415 | every run goes on until all callbacks have returned |
| WhenAnyWithoutException.NeverResolves | trpc/future/future_utility.h:379-415 | with 2^32 failed inputs or more every run goes on to one in which all callbacks have returned and nothing was set |
| DoUntil.SameAsWhile | trpc/future/future_utility.h:96-117 | it finishes if and only if the plain loop ends, with the same calls on the same states in the same order and the same failure |
| DoUntil.MachineFollows | trpc/future/future_utility.h:96-117 | the callbacks, inline or through futures, do in three steps a round what the loop does |
| DoUntil.IndexedIsFor | trpc/future/future_utility.h:265-271 | with an indexed body call j has index j, up to the first failure |
| DoUntil.CountedIsFor | trpc/future/future_utility.h:272-275 | with a plain body the same calls are made |
| DoUntil.ForCallsCourse | trpc/future/future_utility.h:265-275 | the calls of a for-loop: each hands its state to the next, all n are made unless one fails, which is then the last |
| DoUntil.DoForRuns | trpc/future/future_utility.h:265-271 | DoFor(n) with an indexed body ends after exactly the calls of the for-loop, with its failure or none |
| DoUntil.CountedDoForRuns | trpc/future/future_utility.h:272-275 | the same with a plain body |
| Handles.DroppedPromise | trpc/future/future.h:1196-1243 | the impl outlives a dropped promise exactly if another handle has it, which then finds a result, "Broken promise" if the future was retrieved and nothing was set; otherwise it is freed, once; other impls are not touched |
| Handles.DroppedFuture | trpc/future/future.h:872-952 | the impl outlives a dropped or overwritten future exactly if another handle has it, with its result as it was; otherwise it is freed, once; other impls are not touched |
| Handles.AccountedDetach | trpc/future/future.h:651-657 | letting a handle go keeps ref_count equal to the number of handles, and it is the last owner exactly when the count is 1 |
| Handles.AccountedTake | trpc/future/future.h:870-876 | a move keeps every count equal to the number of handles |
| Handles.OwnersCount | trpc/future/future.h:651-657 | how the owners of an impl change when one handle is pointed elsewhere |
| Handles.Program.NewPromise | trpc/future/future.h:1180-1180 | a fresh impl owned by the promise alone; accounts stay exact and nothing is freed |
| Handles.Program.NewResolvedFuture | trpc/future/future.h:860-868 | a fresh impl with a result, owned by the future alone |
| Handles.Program.GetFuture | trpc/future/future.h:1222-1225 | the future shares the promise's impl, counted once more, and the promise is marked retrieved |
| Handles.Program.MoveConstruct | trpc/future/future.h:870-870 | the new handle has what the old one had, which is left empty; no impl changes |
| Handles.Program.Detach | trpc/future/future.h:947-952 | the impl is freed if and only if no other handle has it, else counted down |
| Handles.Program.DetachPromise | trpc/future/future.h:1231-1243 | an unresolved retrieved promise first fails its future |
| Handles.Program.AssignFuture | trpc/future/future.h:872-876 | the target lets its impl go and takes the other's; onto itself it is lost |
| Handles.Program.AssignPromise | trpc/future/future.h:1185-1194 | as for futures, with the broken promise first; onto itself nothing happens |
| Handles.Program.SetResult | trpc/future/future.h:1198-1207 | only the promise's own impl gets the result, and every count stays |
| Handles.Program.Destroy | trpc/future/future.h:851-952 | over every sequence of operations: counts are the handles, an impl is freed exactly once, when its last handle goes |
| Dfs.WalkIsTopological | trpc/common/trpc_plugin.cc:149-219 | on every acyclic graph and table order the walk succeeds exactly if all dependencies resolve and nobody fails, and then visits each node once, after all it points to |
| Dfs.ReachedComesBefore | trpc/common/trpc_plugin.cc:149-219 | in such an order everything a node leads to, however far, comes first |
| Dfs.EndsIff | trpc/common/trpc_plugin.cc:263-282 | on any graph without an edge to nowhere or a failing node, and for every table order: some depth of recursion is enough if and only if the graph is acyclic |
| Dfs.AcyclicEnds | trpc/common/trpc_plugin.cc:263-282 | on an acyclic graph the recursion, cut off at some depth, has the result of the walk |
| Dfs.AlwaysBeforeIff | trpc/common/trpc_plugin.cc:252-314 | the recursion ends with a before b, whatever the table order, if and only if b leads to a |
| PluginTable.UpEdges | trpc/common/trpc_plugin.cc:160-219 | the edges on the way up are the declared dependencies, resolved |
| PluginTable.UpwardWalk | trpc/common/trpc_plugin.cc:160-219 | Init and Start both follow exactly these edges, and nothing makes them give up exactly if every declared name resolves and, for Init, no Init() fails |
| PluginTable.ValidNames | trpc/common/trpc_plugin.cc:341-364 | a plain name is valid; with something after '#', exactly if that begins, after white space, with a number that an int32 holds, negative ones included, and that is at most the last type, whatever follows it |
| PluginTable.DownEdges | trpc/common/trpc_plugin.cc:263-314 | the edges Stop and Destroy follow lead from a plugin to those that declare its Name() |
| PluginTable.PlainEdges | trpc/common/trpc_plugin.h:172-192 | with plain names the reverse index is the dependency relation, turned around |
| PluginTable.PlainNamesAcyclic | trpc/common/trpc_plugin.cc:252-314 | with plain names the way down is acyclic if the dependencies are |
| PluginTable.PlainNamesLead | trpc/common/trpc_plugin.h:172-192 | with plain names every dependency resolves and each plugin leads to its dependents on the way down |
| PluginTable.StopsInReverse | trpc/common/trpc_plugin.cc:252-314 | with resolvable acyclic dependencies, each plugin leading to its dependents, every plugin is stopped once, before all it depends on, directly or not |
| PluginTable.StopsInReverseIff | trpc/common/trpc_plugin.cc:252-314 | for all resolvable acyclic dependencies: whatever the table order some depth of recursion is enough and every plugin is stopped before all it depends on, directly or not, exactly if each plugin leads to its dependents on the way down |
| PluginTable.DeclaredNameIsOwn | trpc/common/trpc_plugin.cc:316-339 | if each plugin leads to its dependents, a declared name that is a plugin's Name() is resolved to that plugin |
| PluginTable.StopNeverReturns | trpc/common/trpc_plugin.cc:263-282 | valid, resolvable, acyclic dependencies on which, whatever the table order, no depth of recursion is enough for StopPlugins |
| PluginTable.TypedNameBreaksOrder | trpc/common/trpc_plugin.cc:263-282 | with a dependency declared as name#type the dependency is stopped before its dependent |
| Lifecycle.TrpcPlugin.AddPlugins | trpc/common/trpc_plugin.h:172-192 | fails exactly on an invalid dependency name, and otherwise table and reverse index are those of the whole list, the first of two equal keys staying |
| Lifecycle.EnteredTable | trpc/common/trpc_plugin.h:172-192 | the table then has the old plugins and, of the new ones, the first of each name and type not taken, and no others |
| Lifecycle.AddedIndexed | trpc/common/trpc_plugin.h:172-192 | with new names the index lists each plugin under exactly the strings it declares |
| Lifecycle.TrpcPlugin.DepNamesValid | trpc/common/trpc_plugin.cc:341-364 | true exactly if all names are valid |
| Lifecycle.TrpcPlugin.FindPlugin | trpc/common/trpc_plugin.cc:316-339 | whatever the table order: the exact key, else the only key with that name, else missing or ambiguous |
| Lifecycle.TrpcPlugin.VisitPlugin | trpc/common/trpc_plugin.cc:160-219 | the recursive methods, with their flags, make the calls of the walk, fail where it fails, and end on acyclic graphs |
| Lifecycle.TrpcPlugin.VisitPlugins | trpc/common/trpc_plugin.cc:252-314 | the loops over the table make the calls of the whole walk and leave other phases alone |
| Lifecycle.TrpcPlugin.BringUp | trpc/common/trpc_plugin.cc:149-219 | Init and Start succeed exactly if every declared name resolves and, for Init, every Init() returns 0, and then call each plugin once, after all it depends on, directly or not |
| Lifecycle.TrpcPlugin.TakeDown | trpc/common/trpc_plugin.cc:252-314 | Stop and Destroy call each plugin once, before all it depends on, directly or not, if each plugin leads to its dependents |
| FilterQueues.MirrorIff | trpc/filter/client_filter_controller.cc:43-52 | adding a filter keeps post queues mirror images of pre queues if and only if its points are paired |
| FilterQueues.HistoryMirrored | trpc/filter/client_filter_manager.cc:60-85 | over every history of registrations, global or of a service, in which the accepted filters have paired points, the mirror holds |
| FilterQueues.HistoryMirroredIff | trpc/filter/client_filter_controller.cc:21-55 | it holds all the time if and only if the points of all accepted filters are paired |
| FilterQueues.MatchedHistoryMirrored | trpc/filter/client_filter_manager.cc:23-35 | for matched points without repeats it always holds |
| FilterQueues.CheckedPointsArePaired | trpc/filter/client_filter_manager.cc:23-35 | points that pass CheckMatchPoints and do not repeat are paired |
| FilterQueues.RepeatedPointBreaksMirror | trpc/filter/client_filter_manager.cc:23-35 | a repeated point passes CheckMatchPoints and breaks the mirror |
| FilterQueues.PostMirrorsPreIff | trpc/filter/client_filter_controller.cc:84-110 | exactly when the post phase runs, in reverse order across the global/service split, the filters whose pre hook accepted |
| FilterChains.FilterManager.CheckMatchPoints | trpc/filter/client_filter_manager.cc:23-35 | true exactly if each point's match is among the points |
| FilterChains.FilterManager.AddMessageFilter | trpc/filter/client_filter_manager.cc:37-45 | the filter is kept by name exactly if its points match |
| FilterChains.FilterManager.AddMessageGlobalFilter | trpc/filter/client_filter_manager.cc:60-85 | refused exactly if the name is in the queue of its first point; otherwise pushed at all points |
| FilterChains.FilterController.AddMessageFilter | trpc/filter/client_filter_controller.cc:21-55 | refused exactly if the name is in the global or the service queue of its first point; otherwise pushed at all points |
| FilterChains.FilterController.RunPre | trpc/filter/client_filter_controller.cc:57-83 | global then service hooks run up to the first rejection, whose position in both queues together is saved; without one nothing is saved; aborts exactly if that position is above 127 |
| FilterChains.FilterController.RunPost | trpc/filter/server_filter_controller.cc:58-116 | service then global hooks run from the place the saved index says, all of them whatever status they leave |
| FilterChains.AcceptedConcat | trpc/filter/client_filter_controller.cc:57-83 | the pre phase over the global and the service queue is that over one chain |
| FilterChains.OffsetsArePostPart | trpc/filter/client_filter_controller.cc:84-110 | the two offsets, wrap-around included, select one suffix of the service and global queues together |
| UnaryCall.CallsAreBalanced | trpc/client/rpc_service_proxy.h:206-275 | whatever happens on the way, each accepted pre hook has exactly one post hook and they nest |
| UnaryCall.TransportInsideBoth | trpc/client/service_proxy.cc:52-72 | the transport runs at most once, and only while exactly all filters of both levels are open, the message level innermost |
| UnaryCall.SameHooks | trpc/client/service_proxy.cc:247-305 | with the same answers the blocking and the future form run the same hooks in the same order, the same pre hooks rejecting, and the same transport, though they set the context's status at different moments |
| UnaryCall.ServiceProxy.UnaryInvoke | trpc/client/rpc_service_proxy.h:206-236 | on a fresh context, for every outcome: nothing for unsupported types, else the message bracket inside the RPC bracket, balanced; exactly when it aborts; and the status it returns |
| UnaryCall.PlainCall | trpc/client/rpc_service_proxy.h:206-275 | with filters that accept and leave the status alone a call is OK, and one through futures has its response, exactly if filling the request, the timeout, encoding, the transport and filling the response all answer well |
| UnaryCall.QuietCallOk | trpc/client/rpc_service_proxy.h:206-275 | if no hook touches the status, it is OK at the end exactly if it was at the beginning and all that was asked went well |
| UnaryCall.FailureIsReported | trpc/client/service_proxy.cc:182-245 | in either form a failure that no later hook repairs is the status at the end |
| UnaryCall.DeliveredIff | trpc/client/rpc_service_proxy.h:401-500 | the call through futures delivers a response exactly if all filters accepted and all went well, whatever the hooks do to the status |
| UnaryCall.ServiceProxy.UnaryInvokeImp | trpc/client/rpc_service_proxy.h:238-275 | the message level runs exactly if filling the request works, and the status that leaves |
| UnaryCall.ServiceProxy.MessageInvoke | trpc/client/service_proxy.cc:52-72 | nothing without time left; else its bracket, with the transport inside exactly if no filter rejects and encoding works |
| UnaryCall.ServiceProxy.UnaryTransportInvoke | trpc/client/service_proxy.cc:182-219 | the transport is called exactly if encoding works |
| UnaryCall.ServiceProxy.AsyncUnaryInvoke | trpc/client/rpc_service_proxy.h:401-429 | the same shape as the blocking call, aborting in the same cases; exactly when a response is delivered, and the status that is left |
| UnaryCall.ServiceProxy.AsyncUnaryInvokeImp | trpc/client/rpc_service_proxy.h:431-500 | on each of its four ways out the RPC post hooks run once; a response exactly if request, transport and response worked |
| UnaryCall.ServiceProxy.AsyncMessageInvoke | trpc/client/service_proxy.cc:74-90 | the same message bracket; ready exactly if the transport ran and succeeded |
| UnaryCall.ServiceProxy.AsyncUnaryTransportInvoke | trpc/client/service_proxy.cc:247-305 | the message post hooks run once, whether encoding fails, the transport fails or it succeeds |
| SeqLock.NoTornReads | trpc/coroutine/fiber_seqlock.h:119-155 | a read section that passes, with fewer than 2^31 write sections completed meanwhile, read one state of the data, which was there throughout the section |
| SeqLock.RetryIff | trpc/coroutine/fiber_seqlock.h:138-145 | with fewer than 2^31 write sections a read section is told to retry exactly if a write section began or completed meanwhile |
| SeqLock.ReadBeginIff | trpc/coroutine/fiber_seqlock.h:119-130 | a reader gets in exactly while nobody writes |
| SeqLock.NoTornIff | trpc/coroutine/fiber_seqlock.h:119-155 | reads with at most a given number of write sections meanwhile are never torn, in all runs, if and only if the counter starts even and that number is below 2^31 |
| SeqLock.StepInv | trpc/coroutine/fiber_seqlock.cc:18-32 | every step of any reader or writer keeps the invariant of counter, mutex, data and committed states |
| SeqLock.WrapAroundTears | trpc/coroutine/fiber_seqlock.h:138-145 | with exactly 2^31 write sections a torn read passes |
| SeqLock.OddStartTears | trpc/coroutine/fiber_seqlock.h:66-68 | from any odd start a torn read passes, with no write section completed |
| BoundedQueue.FiberBlockingBoundedQueue.Push | trpc/coroutine/fiber_blocking_bounded_queue.h:53-64 | accepted items are the popped ones followed by the content; the size is their sum in 64 bits; a stopped queue drops the item; within capacity if and only if no overflow |
| BoundedQueue.FiberBlockingBoundedQueue.TryPush | trpc/coroutine/fiber_blocking_bounded_queue.h:100-114 | the same, and false without a change exactly if the sum of all sizes in 64 bits is above the capacity and there was no Stop |
| BoundedQueue.FiberBlockingBoundedQueue.Pop | trpc/coroutine/fiber_blocking_bounded_queue.h:116-127 | items leave in the order they were accepted, none lost or made up; a stopped queue gives nothing |
| BoundedQueue.FiberBlockingBoundedQueue.TryPop | trpc/coroutine/fiber_blocking_bounded_queue.h:163-177 | the same, and false without a change exactly if it is empty and not stopped |
| BoundedQueue.FiberBlockingBoundedQueue.TotalFirst | trpc/coroutine/fiber_blocking_bounded_queue.h:116-127 | popping takes the first item's size off the sum |
| ByteBuffer.OthersKeep | trpc/coroutine/fiber_blocking_noncontiguous_buffer.h:76-150 | over every run of appends, cuts, capacity changes and Stop, cut bytes followed by content are the appended bytes |
| ByteBuffer.StaysWithinCapacity | trpc/coroutine/fiber_blocking_noncontiguous_buffer.h:165-167 | in every run of appends and cuts without Stop, smaller capacity or overflow the content stays within the capacity |
| ByteBuffer.RoomRightIff | trpc/coroutine/fiber_blocking_noncontiguous_buffer.h:39-48 | over a whole AppendAlways, against every schedule of the others, the room never underflows if and only if no SetCapacity right after a test goes below the content |
| ByteBuffer.AlwaysFitsIff | trpc/coroutine/fiber_blocking_noncontiguous_buffer.h:39-48 | with others that before a test neither stop the buffer nor shrink it nor overflow, the content stays within the capacity throughout an AppendAlways under exactly that condition |
| ByteBuffer.WithinAtTheEnd | trpc/coroutine/fiber_blocking_noncontiguous_buffer.h:39-48 | and then also at the end |
| ByteBuffer.AlwaysDelivers | trpc/coroutine/fiber_blocking_noncontiguous_buffer.h:39-48 | against every schedule of the others what arrived of the item, followed by the rest, is the item, in order |
| ByteBuffer.AlwaysEnds | trpc/coroutine/fiber_blocking_noncontiguous_buffer.h:39-48 | with room as often as the item has bytes all of it is delivered |
| ByteBuffer.TurnTakesIn | trpc/coroutine/fiber_blocking_noncontiguous_buffer.h:39-48 | exactly when a round of the loop takes something in |
| ByteBuffer.TurnFitsIff | trpc/coroutine/fiber_blocking_noncontiguous_buffer.h:42-44 | for one round of the loop: within the capacity afterwards exactly if no late SetCapacity goes below the content |
| ByteBuffer.FiberBlockingNoncontiguousBuffer.Append | trpc/coroutine/fiber_blocking_noncontiguous_buffer.h:30-37 | appended at the end, conserving all bytes; within capacity if and only if no overflow |
| ByteBuffer.FiberBlockingNoncontiguousBuffer.Cut | trpc/coroutine/fiber_blocking_noncontiguous_buffer.h:88-97 | exactly the first bytes asked for; nothing from a stopped buffer |
| ByteBuffer.FiberBlockingNoncontiguousBuffer.TryCut | trpc/coroutine/fiber_blocking_noncontiguous_buffer.h:125-135 | the first bytes, or after Stop what there is; false without a change if there are too few |
| ByteBuffer.FiberBlockingNoncontiguousBuffer.AppendAlways | trpc/coroutine/fiber_blocking_noncontiguous_buffer.h:39-48 | the loop does, turn by turn, what the schedule allows |
| SeriesRings.CursorsAreDigits | trpc/admin/sample.h:179-231 | after n appends the cursors are the mixed-radix digits of n |
| SeriesRings.SlotsHoldLast | trpc/admin/sample.h:179-231 | every filled slot holds the value of the last stretch of samples that was put there |
| SeriesRings.SeriesSamples.AppendSecond | trpc/admin/sample.h:179-192 | every ring of every level holds what the whole history says, after every append |
| SeriesRings.SeriesSamples.AppendMinute | trpc/admin/sample.h:194-207 | the same from the minutes on, the seconds not touched |
| SeriesRings.SeriesSamples.AppendHour | trpc/admin/sample.h:209-222 | the same from the hours on |
| SeriesRings.SeriesSamples.AppendDay | trpc/admin/sample.h:224-231 | the same for the days |
| SeriesRings.MinuteSlotIsExtreme | trpc/admin/sample.h:93-103 | under Max and Min a minute slot is the extreme of its 60 samples |
| SeriesRings.HourSlotIsExtreme | trpc/admin/sample.h:93-103 | an hour slot that of its 3600 samples |
| SeriesRings.DaySlotIsExtreme | trpc/admin/sample.h:93-103 | a day slot that of its 86400 samples |
| SeriesRings.SlotsAreAverages | trpc/admin/sample.h:111-116 | under Average, of non-negative samples, a minute slot is the true average rounded down, an hour slot at most 1 below and a day slot at most 2 |
| SeriesValues.DayWithin | trpc/admin/sample.h:105-116 | under Add a day is the sum of its 86400 samples; under Average 86400 times the day is at most 252720 short of it |
| SeriesValues.HourAverage | trpc/admin/sample.h:111-116 | the hour is 0 or 1 below the true average |
| SeriesValues.DayAverage | trpc/admin/sample.h:111-116 | the day is 0 to 2 below |
| SeriesValues.BoundsAttained | trpc/admin/sample.h:111-116 | there are samples for which the hour is 1 below and the day 2 below |

## Left out

- Weak memory: every atomic is sequentially consistent, fences do nothing.
- Liveness of the containers: they use `notify_one`, so only what their operations keep is stated, not that a waiter wakes.
- AppendAlways: after Stop it still waits for room; that it then may wait for ever is not stated.
- Samples that overflow their integer type: the operations of the series work on unbounded integers.
- SlotsAreAverages: averages of negative samples, which truncate towards zero, are not bounded.
- SameHooks: says nothing of the statuses that post hooks leave, which may differ where a hook looks at the context's status.
- Status codes and messages of a call, statistics and timestamps: only whether the context's status is OK is kept.
- One-way and broadcast calls, and the filter points that run inside the transport.
- `WhenAll` over a tuple: the same counting protocol over a fixed number of inputs.
- `DoForEach` and `DoWhile`: a stop condition and a body handed to `DoUntil`, covered by its theorem for any such pair.
- Executors: a scheduled continuation becomes an activity that runs at any later moment; the fallback to the current thread is one such moment.
- Codecs, serialization, compression, the buffer's own blocks, naming, timers, fibers and their scheduler, admin pages, configuration and factories.
