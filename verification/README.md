# Verified model of graphql_vss_server_libs

This project models the two stateful cores of the library, its reference-counted singleton storage and
its subscription/operation protocol, together with the small algorithms they rely on, and proves what
they are meant to keep.  Check it with `dafny verify dfyconfig.toml`.

## Singletons

A storage maps each key to one singleton.  Singletons are counted by the `Ref`s to them; the value of
a singleton holds `Ref`s to other singletons, so deleting one can dispose of others or delete them.

* `SingletonGraph` is the ownership graph: singletons, values, `Ref`s, who holds what, and what is
  reachable from outside.  `Restrict`, `Settle` and `Sweep` say what is left after deletions, after a
  cascade and after a tracing collection.
* `SingletonCollection` shows that cascading rounds of zero-count deletions end in `Sweep`, and that the
  number of productive rounds is the length of the longest chain of dependent garbage.
* `SingletonRuns` is the storage as a state machine over `get`, `Ref` copy/move/drop, creation, outside
  shares of a value, collection and `clear`, with its invariant and what holds over whole runs.
* `SingletonMemory` is the C++ heap made explicit (addresses, counters, `delete`) with the recursive
  destructor cascade and the loops of a collection; `SingletonStorages` is the class that keeps it in its
  fields.  Every method's new state is the state machine's.
* `RequestState` and `Permissions` add a request's cache of singletons, its signal connections and its
  permission flags.

Dependencies are assumed to be acyclic through a rank given at creation, as attributes depend on proxies;
a value only gets `Ref`s to singletons of lower rank.

## Protocol

Each protocol part is a state machine whose events are the atomic accesses of one thread, interleaved
freely, plus a class whose methods do exactly those events in place.

* `Subscription` / `SubscriptionOperation`: one subscription with its FIFO worker, its delivery timer
  and a clock; rate limiting, latest-wins coalescing, stop with join, permission latching.
* `RegularOperation`: a query or mutation on the shared pool.
* `Connection`: one connection with any number of operations of both kinds, stopping, tearing down and
  emptying the handlers while workers run.  Each of its operations goes through a run of its own machine.
* `Http`: one HTTP request from arrival to its answer.
* `Notifications`: merging and delivering notification triggers.

Assumed: sequential consistency for `m_stopped` and handler copies, no transport messages once a
connection is being torn down, a timer never fires before its deadline, and `deliver(name)` calls the
callback of every subscription registered under `name`.  A signal's slot runs as one step together with
the notification it posts, so that clearing the connections is seen to wait for slots that are running;
and a connection is taken to outlive the pool jobs that refer to its handlers.

## Algorithms

`EventList` (the accumulated unique events), `Demangle` (the template-argument scanner), `Messages` (message
builder, decoder and HTTP status), `Numerals` (the `%lf` conversion and the exact grammar of what it reads)
and `HSVColors` (colour printing and parsing over exact decimals).

## Where the code differs from what one would expect

* Two `get`s of a key return the same singleton iff between them there was no `clear` and no collection at
  a moment when it was unreachable.  A positive count is not enough: `CountDoesNotProtect` gives a
  singleton held only by garbage that one collection deletes.
* `templateargument` advances the start of an argument for every space outside of inner brackets, also
  behind its first character: `InnerSpaceEats`.  `ScanPrinted` says exactly when the result is the argument
  without its leading spaces.
* `createResponse` passes the type on as a C string, and the decoder drops payloads that are not maps:
  `RoundTrip` says exactly when a message comes back, and `DoesNotComeBack` shows one of each kind that does not.
* A token error without a reason maps to 400, since the prefix must be a proper one: `UnauthorizedExactly`
  and `NoReason`.
* A colour text with three numbers and a wrong end leaves `used` unassigned: `AcceptsExactly` says exactly
  when the set still takes exactly the texts of the format, and `TakenByChance` shows one it should not.
* The count returned by a collection is that of its productive rounds, not of the deleted singletons.

## Model

| member | source | states |
|---|---|---|
| SingletonGraph.AllReferenced | graphql_vss_server_libs/support/singleton.cpp:165-181 | In an acyclic graph where every singleton has a Ref, every singleton is reachable from outside: a zero-count cascade leaves nothing behind |
| SingletonGraph.SettleInv | graphql_vss_server_libs/support/singleton.cpp:36-49 | After a cascade of detached deletions no detached singleton without a Ref is left, and the graph is well formed |
| SingletonGraph.SweepInv | graphql_vss_server_libs/support/singleton.cpp:165-181 | What a tracing collection keeps is well formed, every survivor has a Ref, so nothing is disposed |
| SingletonGraph.SettleWithout | graphql_vss_server_libs/support/singleton.cpp:36-49 | Dropping Refs commutes with settling: the order of a cascade's drops does not matter |
| SingletonGraph.SettleWithoutMore | graphql_vss_server_libs/support/singleton.cpp:36-49 | Dropping one more Ref after the others settled gives the same graph as dropping all at once |
| SingletonGraph.UnlinkRestrict | graphql_vss_server_libs/support/singleton.cpp:25-49 | Destroying a zero-count singleton and dropping the members of its value leaves exactly the graph without it |
| SingletonGraph.SoundWithout | graphql_vss_server_libs/support/singleton.cpp:36-49 | A dropped Ref makes its singleton disposed, deletable or neither, exactly as its count and attachment say |
| SingletonCollection.PrunedDelete | graphql_vss_server_libs/support/singleton.cpp:150-163 | Deleting one zero-count singleton with its whole cascade deletes only garbage and no other attached singleton |
| SingletonCollection.PrunedDone | graphql_vss_server_libs/support/singleton.cpp:165-181 | When nothing is disposed any more, exactly the tracing collection's survivors are left |
| SingletonCollection.MidRoundDelete | graphql_vss_server_libs/support/singleton.cpp:150-163 | Each deletion of a round leaves the other collected singletons in place to be deleted next |
| SingletonCollection.GoneBoundStep | graphql_vss_server_libs/support/singleton.cpp:165-181 | After k rounds no chain of more than k attached singletons ended in what is gone |
| SingletonCollection.DueChainStep | graphql_vss_server_libs/support/singleton.cpp:165-181 | After k rounds each newly disposed singleton ends a chain of k + 1 attached ones |
| SingletonCollection.RoundsAreLongestChain | graphql_vss_server_libs/support/singleton.cpp:165-181 | At the end the number of productive rounds is the length of the longest chain of dependent garbage |
| SingletonRuns.StepInv | graphql_vss_server_libs/support/singleton.hpp:206-232 | Every call keeps counts, children, disposed set and ownership right |
| SingletonRuns.RunInv | graphql_vss_server_libs/support/singleton.hpp:206-232 | In every state of every run no Ref points to a deleted singleton, m_disposed is exactly the attached children with count zero, and children are distinct |
| SingletonRuns.ChildStays | graphql_vss_server_libs/support/singleton.cpp:165-195 | A singleton stays the child of its key until a clear or a collection that finds it unreachable, and never becomes one again |
| SingletonRuns.SameSingleton | graphql_vss_server_libs/support/singleton.hpp:209-232 | Two gets of one key return the same singleton iff between them no clear came and no collection while it was unreachable |
| SingletonRuns.CountDoesNotProtect | graphql_vss_server_libs/support/singleton.cpp:165-181 | A run in which a singleton has a Ref at every moment from its get to a collection and nothing is cleared, and yet the next get returns another one |
| SingletonRuns.DiesAtLastDrop | graphql_vss_server_libs/support/singleton.cpp:36-60 | Whatever the call and whatever else is in the storage, a detached singleton dies in it exactly when it is left without a Ref, cascades included |
| SingletonRuns.LivesUntilLastDrop | graphql_vss_server_libs/support/singleton.cpp:36-60 | In every continuation of a run a detached singleton lives exactly as long as it has always had a Ref |
| SingletonRuns.ClearDetaches | graphql_vss_server_libs/support/singleton.cpp:183-195 | What clear leaves is detached, has a Ref, and is no child any more |
| SingletonRuns.NothingLeft | graphql_vss_server_libs/support/singleton.cpp:183-195 | After clear, with no outside Refs or values left, nothing is alive |
| SingletonRuns.NothingLeftInRun | graphql_vss_server_libs/support/singleton.cpp:183-195 | After a clear and, without further gets, the release of all outside Refs and values in any order, nothing is alive |
| SingletonRuns.HeldRefStays | graphql_vss_server_libs/support/singleton.hpp:45-82 | A held Ref keeps its target alive and out of m_disposed through every call that does not release it |
| SingletonRuns.HeldRefStaysInRun | graphql_vss_server_libs/support/singleton.hpp:45-82 | The same over any stretch of a run, collections and clears included |
| SingletonRuns.OuterStep | graphql_vss_server_libs/support/singleton.hpp:45-82 | Every call adds to the Refs held outside exactly the one it hands out, to the right singleton, and takes away exactly those it is given |
| SingletonRuns.SharesStep | graphql_vss_server_libs/support/singleton.hpp:135-156 | The outside shares of a value change by one when one is taken or given up and by no other call |
| SingletonRuns.SharesInRun | graphql_vss_server_libs/support/singleton.hpp:135-156 | In every state of every run the outside shares of a value are those taken less those given up |
| SingletonRuns.HeldValueStays | graphql_vss_server_libs/support/singleton.hpp:135-156 | While somebody outside has a share of a value, no drop, collection or clear touches the value, its members or the singletons they point to |
| SingletonRuns.HeldValueStaysInRun | graphql_vss_server_libs/support/singleton.hpp:135-156 | The same over any stretch of a run in which more shares were taken than given up |
| SingletonRuns.HeldValueKeepsGets | graphql_vss_server_libs/support/singleton.hpp:209-232 | Nor does, short of a clear, a get of the key of such a singleton ever return another one |
| SingletonMemory.DropRef | graphql_vss_server_libs/support/singleton.cpp:36-49 | `~Ref`/`unref`: decrement, then dispose or delete; heap and disposed set agree with the settled graph without the Ref |
| SingletonMemory.Delete | graphql_vss_server_libs/support/singleton.cpp:25-49 | The recursive destructor cascade ends and leaves exactly the settled graph without the singleton |
| SingletonMemory.DropRefs | graphql_vss_server_libs/support/singleton.hpp:61-65 | The members of a dead value, dropped one by one in any order, leave the settled graph without all of them |
| SingletonMemory.StaysAtDrop | graphql_vss_server_libs/support/singleton.cpp:36-49 | A drop that leaves other Refs or an attached singleton takes that one Ref off and changes nothing else in memory |
| SingletonMemory.DiesAtDrop | graphql_vss_server_libs/support/singleton.cpp:25-49 | The last drop of a detached singleton frees it and its share of its value, which dies with its members when that was the last one |
| SingletonMemory.ScanDisposed | graphql_vss_server_libs/support/singleton.cpp:122-148 | The early-exit scan finds precisely the keys of the disposed children, each once, and its two assertions hold |
| SingletonMemory.KeysFound | graphql_vss_server_libs/support/singleton.cpp:142-144 | Stopped early or not, as many keys are found as there are disposed |
| SingletonMemory.DeleteKeys | graphql_vss_server_libs/support/singleton.cpp:150-163 | One round deletes and erases the keyed children; afterwards m_disposed is what the round newly disposed |
| SingletonMemory.DetachChildren | graphql_vss_server_libs/support/singleton.cpp:188-194 | Every child is detached and nothing else changes |
| SingletonStorages.SingletonStorage.constructor | graphql_vss_server_libs/support/singleton.hpp:206-207 | An empty storage |
| SingletonStorages.SingletonStorage.Get | graphql_vss_server_libs/support/singleton.hpp:209-232 | A known key gives its singleton, recycled from m_disposed, with one more on its count; an unknown one a new singleton with count one; nothing else changes |
| SingletonStorages.SingletonStorage.CopyRef | graphql_vss_server_libs/support/singleton.hpp:67-70 | One more Ref to the same singleton, one more on its count, and nothing else |
| SingletonStorages.SingletonStorage.MoveRef | graphql_vss_server_libs/support/singleton.hpp:72-76 | The pointer changes hands; no count, value or collection changes |
| SingletonStorages.SingletonStorage.Drop | graphql_vss_server_libs/support/singleton.cpp:36-49 | One Ref and one count less, disposing of an attached singleton at zero; the last Ref of a detached one frees it with its share of its value; the state is the settled graph without the Ref |
| SingletonStorages.SingletonStorage.FinishCreation | graphql_vss_server_libs/support/singleton.hpp:120-125 | The value created for a singleton takes over exactly the Refs made for it, with one share |
| SingletonStorages.SingletonStorage.PinValue | graphql_vss_server_libs/support/singleton.hpp:135-156 | The use count of the value goes up by one, and nothing else changes |
| SingletonStorages.SingletonStorage.UnpinValue | graphql_vss_server_libs/support/singleton.hpp:135-156 | The use count goes down by one; the last share takes the value and its members, with all their cascade |
| SingletonStorages.SingletonStorage.MoveDisposedToDeleteKeys | graphql_vss_server_libs/support/singleton.cpp:122-148 | Exactly the keys of the disposed children; m_disposed is emptied |
| SingletonStorages.SingletonStorage.GarbageCollectInternal | graphql_vss_server_libs/support/singleton.cpp:150-163 | One round; the assertion that every key is found holds |
| SingletonStorages.SingletonStorage.GarbageCollect | graphql_vss_server_libs/support/singleton.cpp:165-181 | Terminates with m_disposed empty; exactly what is reachable from outside is left, and exactly its keys; returns the length of the longest chain of collected singletons |
| SingletonStorages.SingletonStorage.Clear | graphql_vss_server_libs/support/singleton.cpp:183-195 | Collects, detaches every survivor, each of which has a Ref, and leaves children and disposed empty |
| SingletonStorages.SingletonStorage.PendingGarbageCollect | graphql_vss_server_libs/support/singleton.cpp:111-114 | The number of attached singletons with count zero |
| RequestState.CacheStep | graphql_vss_server_libs/protocol/graphqlrequeststate.hpp:83-107 | No call of anybody else changes what the cached Refs point to or disposes of it |
| RequestState.CacheForLife | graphql_vss_server_libs/protocol/graphqlrequeststate.hpp:83-107 | Over a whole run, collections and clears included, the cache answers the same singletons, none of them disposed |
| RequestState.TemporaryCopy | graphql_vss_server_libs/protocol/graphqlrequeststate.hpp:91-95 | The temporary Ref of a cache hit comes and goes without a trace |
| RequestState.FirstUse | graphql_vss_server_libs/protocol/graphqlrequeststate.hpp:97-101 | A first use leaves exactly one Ref in the cache, to the singleton the storage gave |
| RequestState.GraphQLRequestState.constructor | graphql_vss_server_libs/protocol/graphqlrequeststate.cpp:16-25 | Empty cache; m_didPermissionsCheck is set from the start iff checks are disabled |
| RequestState.GraphQLRequestState.Validate | graphql_vss_server_libs/protocol/graphqlrequeststate.hpp:51-70 | Allowed iff already checked or all keys are in the set, not authenticated iff unchecked and without permissions; the failed flag is set with every other answer and only then |
| Permissions.CheckAnswers | graphql_vss_server_libs/protocol/graphqlrequeststate.hpp:51-70 | The verdict and the flags of a check, each exactly |
| RequestState.GraphQLRequestState.Observe | graphql_vss_server_libs/protocol/graphqlrequeststate.hpp:72-81 | One connection for a subscription, none otherwise |
| RequestState.GraphQLRequestState.GetSingleton | graphql_vss_server_libs/protocol/graphqlrequeststate.hpp:83-107 | One cached Ref per used key, repeated calls answer from it, one signal connection per used signal-bearing key of a subscription |
| RequestState.GraphQLRequestState.Cached | graphql_vss_server_libs/protocol/graphqlrequeststate.hpp:91-95 | A cache hit answers through a temporary Ref and leaves no trace in the storage |
| RequestState.GraphQLRequestState.FirstUsed | graphql_vss_server_libs/protocol/graphqlrequeststate.hpp:97-106 | A first use adds one cached Ref and, for a subscription, the connection of a signal-bearing key |
| Subscription.StepInv | graphql_vss_server_libs/protocol/graphqlconnectionoperation.cpp:379-672 | Every event keeps the invariants of delivery, rate, queue, sent results, replies and permission flags |
| Subscription.RunInv | graphql_vss_server_libs/protocol/graphqlconnectionoperation.cpp:323-672 | They hold in every state of every interleaving from `start` on |
| Subscription.JoinReleases | graphql_vss_server_libs/protocol/graphqlconnectionoperation.cpp:461-485 | `stop()` has returned iff timer, pending result, connections, registration and all tasks are gone |
| Subscription.StopIsFinal | graphql_vss_server_libs/protocol/graphqlconnectionoperation.cpp:446-495 | After `stop()` returned nothing is sent any more and nothing comes back, in every continuation |
| Subscription.ReleasedStep | graphql_vss_server_libs/protocol/graphqlconnectionoperation.cpp:453-459 | A further stop changes nothing |
| Subscription.OneReplyAfterStop | graphql_vss_server_libs/protocol/graphqlconnectionoperation.cpp:604-648 | At most one reply goes out after m_stopped was set |
| Subscription.JoinCanGoOn | graphql_vss_server_libs/protocol/graphqlconnectionoperation.cpp:472-474 | A waiting `stop()` can return or its worker has a next step |
| Subscription.JoinNears | graphql_vss_server_libs/protocol/graphqlconnectionoperation.cpp:472-474 | Each of those steps outside a resolver brings the return closer and nothing moves it away |
| Subscription.JoinCanEnd | graphql_vss_server_libs/protocol/graphqlconnectionoperation.cpp:472-475 | From every state in which `stop()` waits, finitely many turns of the worker lead to its return with everything released |
| Subscription.RateBound | graphql_vss_server_libs/protocol/graphqlconnectionoperation.cpp:561-602 | Dispatches with intervals of at least I: at most floor(W / I) + 1 in any window of length W |
| Subscription.IntervalInRun | graphql_vss_server_libs/protocol/graphqlconnectionoperation.cpp:345-365 | From any moment at which the interval is at least I and as long as none below I is set, every later dispatch is bound by at least I, but for the one of a timer armed before |
| Subscription.RateBoundInRun | graphql_vss_server_libs/protocol/graphqlconnectionoperation.cpp:497-534 | From any such moment of any run, and for every I > 0, a window of length W sees at most floor(W / I) + 1 dispatches |
| Subscription.DeadlineFixed | graphql_vss_server_libs/protocol/graphqlconnectionoperation.cpp:519-520 | No event moves the deadline of an armed timer |
| Subscription.ArmedExactly | graphql_vss_server_libs/protocol/graphqlconnectionoperation.cpp:516-523 | A timer is armed only by an accepted result, for the end of the interval since the last delivery, or for now when that is past |
| Subscription.DeadlineFixedInRun | graphql_vss_server_libs/protocol/graphqlconnectionoperation.cpp:519-520 | As long as a timer stays armed its deadline is the one it was armed with, whatever is accepted meanwhile |
| Subscription.Due | graphql_vss_server_libs/protocol/graphqlconnectionoperation.cpp:522-533 | Once the deadline passed, the timer can expire or its handler can run |
| Subscription.NoStarvation | graphql_vss_server_libs/protocol/graphqlconnectionoperation.cpp:519-533 | However many results were accepted since the timer was armed, the old deadline still holds, and after it expiry and handler dispatch the newest result |
| Subscription.DispatchInTime | graphql_vss_server_libs/protocol/graphqlconnectionoperation.cpp:516-533 | The dispatch takes place at the later of the moment its timer was armed and the end of the interval before it, or now if that is past |
| Subscription.AcceptedIsDispatched | graphql_vss_server_libs/protocol/graphqlconnectionoperation.cpp:497-602 | Every accepted result of a running subscription, or a newer one in its batch, is dispatched already or after at most three delivery events |
| Subscription.DispatchesNewest | graphql_vss_server_libs/protocol/graphqlconnectionoperation.cpp:578-602 | A dispatch carries the most recently accepted result, behind everything handed over before, and disarms the timer |
| Subscription.DispatchNotEarly | graphql_vss_server_libs/protocol/graphqlconnectionoperation.cpp:524-533 | Dispatches happen only through the timer and not before its deadline |
| Subscription.BatchesPartition | graphql_vss_server_libs/protocol/graphqlconnectionoperation.cpp:505-533 | The dispatched batches partition the accepted results up to the last dispatch |
| Subscription.Fate | graphql_vss_server_libs/protocol/graphqlconnectionoperation.cpp:463-470 | Every accepted result is dispatched or superseded in exactly one batch, waits behind the pending one, or was dropped by stop |
| Subscription.RepliesInOrder | graphql_vss_server_libs/protocol/graphqlconnectionoperation.cpp:595-648 | Replies are a prefix of what was sent, in order, none twice; all of it when the worker is idle; a moved-from future is never sent |
| Subscription.FailureIsFinal | graphql_vss_server_libs/protocol/graphqlconnectionoperation.cpp:655-671 | After a failed check m_didPermissionsCheck is never set and every later completed resolution schedules a stop |
| Subscription.LatchedOnlyIfPermitted | graphql_vss_server_libs/protocol/graphqlconnectionoperation.cpp:655-656 | m_didPermissionsCheck is set only after a reply, with every check so far permitted |
| Subscription.LatchExactly | graphql_vss_server_libs/protocol/graphqlconnectionoperation.cpp:655-671 | A first completed resolution sets it iff every check so far was permitted, and schedules a stop otherwise |
| Subscription.LatchedInRun | graphql_vss_server_libs/protocol/graphqlrequeststate.hpp:51-70 | In every run with checks enabled, a set m_didPermissionsCheck goes back to one completed resolution up to which every check was permitted, and it never coexists with the failed flag |
| Subscription.VerdictsInRun | graphql_vss_server_libs/protocol/graphqlrequeststate.hpp:51-70 | In every run a check answers that it is allowed iff one was latched before or the client has every required permission, and otherwise sets the failed flag |
| SubscriptionOperation.GraphQLConnectionOperationSubscription.Start | graphql_vss_server_libs/protocol/graphqlconnectionoperation.cpp:323-343 | Default interval, and the subscribe task posted to the worker |
| SubscriptionOperation.GraphQLConnectionOperationSubscription.CalculateTimeRemainingToDeliver | graphql_vss_server_libs/protocol/graphqlconnectionoperation.cpp:561-576 | Never negative; waiting that long completes the interval, and no longer than needed |
| SubscriptionOperation.GraphQLConnectionOperationSubscription.OnFutureSubscription | graphql_vss_server_libs/protocol/graphqlconnectionoperation.cpp:497-534 | Accepts iff running and notified; replaces the pending result; arms a timer only if there is none, for the end of the interval or at once when that is past |
| SubscriptionOperation.GraphQLConnectionOperationSubscription.DispatchPendingDelivery | graphql_vss_server_libs/protocol/graphqlconnectionoperation.cpp:578-602 | A running subscription hands the newest accepted result to its worker, behind everything before, and is without timer and pending result; a stopped one does nothing |
| SubscriptionOperation.GraphQLConnectionOperationSubscription.Stop | graphql_vss_server_libs/protocol/graphqlconnectionoperation.cpp:446-475 | The flag, no timer and no pending result, the unsubscribe task behind the others, and the join to wait for; nothing when already stopped |
| SubscriptionOperation.GraphQLConnectionOperationSubscription.RunDeferredStop | graphql_vss_server_libs/protocol/graphqlconnectionoperation.cpp:670-670 | The stop scheduled after a failed check |
| SubscriptionOperation.GraphQLConnectionOperationSubscription.JoinReturned | graphql_vss_server_libs/protocol/graphqlconnectionoperation.cpp:474-474 | When the join returns everything is released |
| SubscriptionOperation.GraphQLConnectionOperationSubscription.RunTask | graphql_vss_server_libs/protocol/graphqlconnectionoperation.cpp:379-386 | The first task is taken; a resolution carries its payload, and an unsubscribe is the last one and leaves no connections and no registration |
| SubscriptionOperation.GraphQLConnectionOperationSubscription.SubscribeReturns | graphql_vss_server_libs/protocol/graphqlconnectionoperation.cpp:397-418 | The key is assigned only after the schema already knows the subscription |
| SubscriptionOperation.GraphQLConnectionOperationSubscription.SubscribeThrows | graphql_vss_server_libs/protocol/graphqlconnectionoperation.cpp:420-435 | The errors of a refused subscription take the way of a result, and are all that was ever handed over |
| SubscriptionOperation.GraphQLConnectionOperationSubscription.SchemaRegisters | graphql_vss_server_libs/protocol/graphqlconnectionoperation.cpp:397-418 | The schema knows the subscription under the key it chose, which the operation has not learned yet |
| SubscriptionOperation.GraphQLConnectionOperationSubscription.SetSubscriptionIntervalBetweenDeliveries | graphql_vss_server_libs/protocol/graphqlconnectionoperation.cpp:345-365 | The new interval holds from now on; an armed timer is left alone |
| SubscriptionOperation.GraphQLConnectionOperationSubscription.AddScopedSignalConnection | graphql_vss_server_libs/protocol/graphqlconnectionoperation.cpp:674-697 | One connection more |
| SubscriptionOperation.GraphQLConnectionOperationSubscription.ResolverValidates | graphql_vss_server_libs/protocol/graphqlrequeststate.hpp:51-70 | A check during a resolution: allowed iff checked before or permitted, with the failed flag set exactly by the other answers |
| SubscriptionOperation.GraphQLConnectionOperationSubscription.ResolutionTestsStopped | graphql_vss_server_libs/protocol/graphqlconnectionoperation.cpp:607-647 | Both tests of m_stopped |
| SubscriptionOperation.GraphQLConnectionOperationSubscription.ResolutionReplies | graphql_vss_server_libs/protocol/graphqlconnectionoperation.cpp:648-648 | Exactly the payload the worker carries is appended to the replies |
| SubscriptionOperation.GraphQLConnectionOperationSubscription.ResolutionChecksFlags | graphql_vss_server_libs/protocol/graphqlconnectionoperation.cpp:655-671 | Latches without a failure; after one it never does and schedules a stop |
| RegularOperation.StepInv | graphql_vss_server_libs/protocol/graphqlconnectionoperation.cpp:216-292 | Every step keeps the trace and the handler copy right, provided handlers are emptied only after the stop |
| RegularOperation.Trace | graphql_vss_server_libs/protocol/graphqlconnectionoperation.cpp:247-292 | The replies are a prefix of data, complete; past the second test the copied handler is there |
| RegularOperation.GraphQLConnectionOperationRegular.Stop | graphql_vss_server_libs/protocol/graphqlconnectionoperation.cpp:216-238 | Sets m_stopped; nothing the second time |
| RegularOperation.GraphQLConnectionOperationRegular.CopyHandler | graphql_vss_server_libs/protocol/graphqlconnectionoperation.cpp:249-249 | The handler is copied before m_stopped is tested |
| RegularOperation.GraphQLConnectionOperationRegular.TestsStopped | graphql_vss_server_libs/protocol/graphqlconnectionoperation.cpp:250-288 | Both tests of m_stopped: a stopped operation is finished, a running one goes on to resolve or to reply |
| RegularOperation.GraphQLConnectionOperationRegular.SendsData | graphql_vss_server_libs/protocol/graphqlconnectionoperation.cpp:289-289 | The data reply, through a handler that is there |
| RegularOperation.GraphQLConnectionOperationRegular.SendsComplete | graphql_vss_server_libs/protocol/graphqlconnectionoperation.cpp:290-290 | The completion, likewise |
| RegularOperation.GraphQLConnectionOperationRegular.StopsItself | graphql_vss_server_libs/protocol/graphqlconnectionoperation.cpp:292-292 | The auto-stop |
| Http.DoInv | graphql_vss_server_libs/protocol/graphqlserver.cpp:263-336 | Every step keeps answers posted and sent in number with the refusal or the data reply, and each the right one |
| Http.AtMostOneAnswer | graphql_vss_server_libs/protocol/graphqlserver.cpp:292-336 | In every interleaving: a prefix of data, complete; at most one response, with one onConnectionDone; its content is the mapped error or the resolved result |
| Http.OneAnswer | graphql_vss_server_libs/protocol/graphqlconnection.cpp:87-106 | When all is done exactly one response was sent iff authorize or make threw or the operation was not stopped before its second test |
| Http.PastExactly | graphql_vss_server_libs/protocol/graphqlconnectionoperation.cpp:283-290 | An operation is past its second test iff some earlier step found it not stopped there |
| Http.HandlerIsThere | graphql_vss_server_libs/protocol/graphqlconnectionoperation.cpp:249-290 | Both replies of an HTTP operation go through a non-empty handler |
| Http.NextStep | graphql_vss_server_libs/protocol/graphqlserver.cpp:330-335 | A request that is not finished has a next step of the worker or of the deferred answer |
| Http.EndNears | graphql_vss_server_libs/protocol/graphqlconnectionoperation.cpp:247-296 | Each of those steps brings the end closer and nothing the server does moves it away |
| Http.AnswerComes | graphql_vss_server_libs/protocol/graphqlserver.cpp:292-336 | From every state of an arrived request at most fifteen such steps finish it, with exactly one response if it was refused, is past its second test or is not stopped |
| Http.HttpExchange.OnHttp | graphql_vss_server_libs/protocol/graphqlconnection.cpp:87-106 | Starts the operation and lists it, or answers 401 to a refused token and 400 to any other error |
| Http.HttpExchange.Reply | graphql_vss_server_libs/protocol/graphqlserver.cpp:292-336 | Posts the answer of a message, none for a completion |
| Http.HttpExchange.WorkerDoes | graphql_vss_server_libs/protocol/graphqlconnectionoperation.cpp:247-296 | A worker step; the data reply posts the result with 200, 400 without data or 501 for no object, and nothing else posts anything |
| Http.HttpExchange.SendAnswer | graphql_vss_server_libs/protocol/graphqlserver.cpp:330-335 | The oldest deferred answer is sent, counted, and the connection torn down with its operation stopped |
| Http.HttpExchange.StopConnection | graphql_vss_server_libs/protocol/graphqlconnection.cpp:67-85 | m_operations is emptied and the operation that was in it stopped |
| Http.HttpExchange.StopListening | graphql_vss_server_libs/protocol/graphqlserver.cpp:93-94 | The operation of a pending request is stopped and taken out; answers are left alone |
| Connection.DoInv | graphql_vss_server_libs/protocol/graphqlconnection.cpp:45-85 | Every step of main thread, workers and pool keeps running operations accounted for and handlers there as long as one runs |
| Connection.RunInv | graphql_vss_server_libs/protocol/graphqlconnection.cpp:45-243 | That holds in every interleaving |
| Connection.NoEmptyHandler | graphql_vss_server_libs/protocol/graphqlconnectionoperation.cpp:604-648 | No step ever calls an emptied handler: copied onReply, notify from workers and signals, defer, offloadWork, timers and triggers alike |
| Connection.SignalsHaveHandlers | graphql_vss_server_libs/protocol/graphqlconnectionoperation.cpp:674-697 | A connected signal or a registered subscription implies that the handlers are there |
| Connection.RunningAreListed | graphql_vss_server_libs/protocol/graphqlconnection.cpp:222-243 | Outside of a stop every operation that is not stopped is in m_operations |
| Connection.SubFollows | graphql_vss_server_libs/protocol/graphqlconnectionoperation.cpp:379-672 | Whatever the connection does is, for each of its subscriptions, one event of that subscription or nothing; the worker copies the handler that is there at that moment |
| Connection.RegularFollows | graphql_vss_server_libs/protocol/graphqlconnectionoperation.cpp:247-296 | The same for queries and mutations |
| Connection.SubscriptionRun | graphql_vss_server_libs/protocol/graphqlconnectionoperation.cpp:379-672 | In every run of a connection each subscription goes through a run of its own, with exactly the events it saw |
| Connection.StartedSubscriptionRun | graphql_vss_server_libs/protocol/graphqlconnection.cpp:186-243 | From its start message on that is a run of a just started subscription, so that everything proved of subscriptions holds inside connections |
| Connection.StopIdIsDone | graphql_vss_server_libs/protocol/graphqlconnection.cpp:201-220 | After a stop of a known id its operation is stopped for good, and until the next start of the id the main thread is still joining its worker or the id is no longer listed |
| Connection.StoppedForGood | graphql_vss_server_libs/protocol/graphqlconnectionoperation.cpp:446-475 | No operation is ever started again |
| Connection.StopAllIsDone | graphql_vss_server_libs/protocol/graphqlconnection.cpp:45-85 | Once the main thread is free again after a stop of the connection every operation there was is stopped for good, and after a teardown the handlers are gone |
| Connection.ClosedExactly | graphql_vss_server_libs/protocol/graphqlconnection.cpp:45-65 | Messages are taken up to the first teardown |
| Connection.TornDown | graphql_vss_server_libs/protocol/graphqlconnection.cpp:45-65 | Once the handlers are emptied all operations are stopped and no subscription holds anything |
| Connection.QuietAfterTearDown | graphql_vss_server_libs/protocol/graphqlconnection.cpp:45-65 | From then on no subscription of the connection accepts, dispatches or sends anything, in every continuation |
| Connection.LateReplies | graphql_vss_server_libs/protocol/graphqlconnectionoperation.cpp:247-292 | After a teardown a query or mutation sends at most the rest of data, complete if its worker was past the second test, and nothing otherwise |
| Connection.StopGoesOn | graphql_vss_server_libs/protocol/graphqlconnection.cpp:67-85 | While a stop or teardown is not over, the main thread or the worker it joins has a step that brings the end closer |
| Connection.StopEnds | graphql_vss_server_libs/protocol/graphqlconnection.cpp:45-85 | From every state, finitely many such steps end the stop; a teardown ends with the handlers emptied, every operation stopped and every subscription released |
| Connection.GraphQLConnection.OnGraphQLStart | graphql_vss_server_libs/protocol/graphqlconnection.cpp:186-243 | Missing id refused, duplicate id ignored, refused payload leaves no trace; otherwise exactly one object more, listed under the id |
| Connection.GraphQLConnection.OnGraphQLStop | graphql_vss_server_libs/protocol/graphqlconnection.cpp:201-220 | Unknown id ignored; otherwise that operation and no other is stopped, and erased at once or, for a running subscription, after the join |
| Connection.GraphQLConnection.StopOperation | graphql_vss_server_libs/protocol/graphqlconnection.cpp:79-83 | That operation and no other is stopped, and a subscription joined before anything else happens |
| Connection.GraphQLConnection.BeginStop | graphql_vss_server_libs/protocol/graphqlconnection.cpp:67-78 | m_operations is emptied before the loop over what was in it; no operation changes yet |
| Connection.GraphQLConnection.StopNextOperation | graphql_vss_server_libs/protocol/graphqlconnection.cpp:79-84 | One turn of the loop; the handlers are emptied only at the end of a teardown |
| Connection.GraphQLConnection.JoinEnds | graphql_vss_server_libs/protocol/graphqlconnection.cpp:79-84 | The main thread goes on where the join interrupted it |
| Notifications.PendingIsUnion | graphql_vss_server_libs/protocol/graphqlserver.cpp:154-180 | Pending are the names notified since the last batch, each with exactly the union of its keys; the timer is armed iff there are any |
| Notifications.DeliveredOnce | graphql_vss_server_libs/protocol/graphqlserver.cpp:154-204 | A notification is in the batch of the first firing after it, unless the server stopped, and in no other |
| Notifications.AcceptsIffNotified | graphql_vss_server_libs/protocol/graphqlconnectionoperation.cpp:554-559 | A subscription that is not stopped accepts a batch iff its name and key were notified since the previous one |
| Notifications.NotInBatch | graphql_vss_server_libs/protocol/graphqlserver.cpp:182-204 | A name outside the batch had none of its keys notified |
| Notifications.NotificationIsDispatched | graphql_vss_server_libs/protocol/graphqlserver.cpp:144-204 | From notification to dispatch: the first firing after it makes the notified subscription accept, and while it is not stopped that result or a newer one gets dispatched |
| Notifications.GraphQLNotifyTriggers.Merge | graphql_vss_server_libs/protocol/graphqlrequesthandlers.cpp:15-18 | Keys move over; those already there stay in the other object |
| Notifications.GraphQLServer.NotifyInMainThread | graphql_vss_server_libs/protocol/graphqlserver.cpp:154-180 | Adds the keys to the pending name although merging changes both shared objects; arms the timer once |
| Notifications.GraphQLServer.DeliverNotifications | graphql_vss_server_libs/protocol/graphqlserver.cpp:182-204 | Each pending name is delivered once, and exactly the registered subscriptions whose key is among its keys accept |
| Notifications.GraphQLServer.CurrentNotificationTriggers | graphql_vss_server_libs/protocol/graphqlserver.cpp:206-212 | Fails iff no notification is being delivered |
| Notifications.GraphQLServer.DropNotifications | graphql_vss_server_libs/protocol/graphqlserver.cpp:101-106 | The end of the server drops timer and pending notifications |
| EventList.LastWriteWins | graphql_vss_server_libs/support/commonapi-singletons.hpp:764-780 | For an equivalence: one entry per class, in the order of first occurrence, each the last event of its class, no two matching |
| EventList.AccumulativeUniqueEvents.ProcessEvent | graphql_vss_server_libs/support/commonapi-singletons.hpp:764-780 | The first entry the event matches is replaced, or the event goes to the end; the list is that of all events received, and is announced after each |
| Demangle.TemplateArgument | graphql_vss_server_libs/support/demangle.hpp:126-174 | For any text: the n-th argument after the first bracket, shortened by as many characters as it has top-level spaces, or the whole text |
| Demangle.ScanPrinted | graphql_vss_server_libs/support/demangle.hpp:126-174 | Scanning a printed name gives the argument without leading spaces iff it has no later space outside of inner brackets |
| Demangle.BeyondTheLast | graphql_vss_server_libs/support/demangle.hpp:173-173 | Asking beyond the last argument gives the whole text |
| Demangle.Unclosed | graphql_vss_server_libs/support/demangle.hpp:126-174 | A text that ends inside an argument still gives the ones before it, and the whole text for any other number |
| Demangle.InnerSpaceEats | graphql_vss_server_libs/support/demangle.hpp:148-149 | An argument with an inner space loses its first character |
| Messages.ToMessageParts | graphql_vss_server_libs/protocol/response_helpers.hpp:29-66 | Fails iff the message is no object; otherwise the first non-empty texts under type and id and the first map under payload |
| Messages.ToOperationDefinitionParts | graphql_vss_server_libs/protocol/response_helpers.hpp:68-105 | Fails iff the payload is no object; otherwise the first non-empty texts under query and operationName and the first map under variables |
| Messages.FirstsArePlaced | graphql_vss_server_libs/protocol/response_helpers.hpp:39-63 | What is read under a key is its first non-empty text and its first map, or nothing when there is none |
| Messages.PlacedByUniqueKeys | graphql_vss_server_libs/protocol/response_helpers.hpp:39-63 | When no key occurs twice, that is what its only member holds |
| Messages.OperationComesBack | graphql_vss_server_libs/protocol/response_helpers.hpp:68-105 | Query, operation name and variables come back from their three members in any order |
| Messages.MessageComesBack | graphql_vss_server_libs/protocol/response_helpers.hpp:29-66 | So do type, id and payload |
| Messages.FirstsAreLookups | graphql_vss_server_libs/protocol/response_helpers.hpp:39-63 | With unique keys the decoder reads the one member of each key, wherever it stands |
| Messages.PermutationIrrelevant | graphql_vss_server_libs/protocol/response_helpers.hpp:29-105 | Every permutation of members with unique keys gives the same result |
| Messages.ExtraMembersIrrelevant | graphql_vss_server_libs/protocol/response_helpers.hpp:29-105 | Added members under other keys change nothing |
| Messages.CreateResponse | graphql_vss_server_libs/protocol/response_helpers.hpp:107-120 | Type, then id unless empty, then payload unless null; keys unique |
| Messages.RoundTrip | graphql_vss_server_libs/protocol/response_helpers.hpp:29-120 | Decoding what was built gives it back iff the type has no NUL and the payload is null or a map |
| Messages.DoesNotComeBack | graphql_vss_server_libs/protocol/response_helpers.hpp:41-57 | A list as payload is dropped, and a type with a NUL is cut there |
| Messages.CreateErrorResponse | graphql_vss_server_libs/protocol/response_helpers.hpp:122-147 | The error text under message and its status under statusCode as payload, 401 for a token error with a reason and 400 otherwise |
| Messages.UnauthorizedExactly | graphql_vss_server_libs/protocol/response_helpers.hpp:130-140 | 401 iff the message is that of a token error with a non-empty reason, 400 otherwise |
| Messages.NoReason | graphql_vss_server_libs/protocol/response_helpers.hpp:135-139 | A token error without a reason maps to 400 |
| Messages.OnHttpReply | graphql_vss_server_libs/protocol/graphqlserver.cpp:292-336 | No answer to a completion, otherwise the payload with its status |
| Messages.StatusTable | graphql_vss_server_libs/protocol/graphqlserver.cpp:297-317 | 200 or 400 for data, the status an error names or 400, 501 for anything else |
| Messages.FindsFirst | graphql_vss_server_libs/protocol/graphqlserver.cpp:303-314 | A member is found iff there is one under the key, and then the first |
| Messages.DataAnswer | graphql_vss_server_libs/protocol/graphqlserver.cpp:297-307 | A built data reply arrives unchanged as 200, or 400 without data; a completion is not answered |
| Messages.ErrorAnswer | graphql_vss_server_libs/protocol/graphqlserver.cpp:308-317 | A built error reply arrives with the status it was mapped to |
| HSVColors.TenthsNearest | graphql_vss_server_libs/support/scalars.cpp:301-301 | Printing with one decimal rounds to the nearest tenth, ties to the even one |
| Numerals.ReadsNumeral | graphql_vss_server_libs/support/scalars.cpp:309-310 | `%lf` gives back any decimal number, with spaces, sign, point, fraction and power, and stops where it ends |
| Numerals.OnlyNumerals | graphql_vss_server_libs/support/scalars.cpp:309-310 | Whatever `%lf` reads was such a number, up to its very end |
| Numerals.ScansExactly | graphql_vss_server_libs/support/scalars.cpp:309-310 | Both directions: `%lf` reads x up to a rest iff a number of that value is spelled there and ends there |
| HSVColors.ReadsFormat | graphql_vss_server_libs/support/scalars.cpp:309-310 | Of any text with the format up to the third number the three numbers are read, and the end is matched iff it follows |
| HSVColors.OnlyOpened | graphql_vss_server_libs/support/scalars.cpp:309-310 | Whatever text three numbers are scanned from has the format up to the third |
| HSVColors.FitsExactly | graphql_vss_server_libs/support/scalars.cpp:309-310 | The scan matches a whole text iff it is spelled in the format, and leaves `used` unassigned after three numbers iff what follows them is not its end |
| HSVColors.TextScans | graphql_vss_server_libs/support/scalars.cpp:297-311 | The scan of a printed colour converts all three numbers and uses the whole text |
| HSVColors.SetSpelled | graphql_vss_server_libs/support/scalars.cpp:305-319 | Setting a colour to any text of the format sets exactly the numbers spelled in it |
| HSVColors.SetToText | graphql_vss_server_libs/support/scalars.cpp:297-333 | Setting any colour to another one's text succeeds, whatever `used` held, and gives each channel in tenths |
| HSVColors.TextStable | graphql_vss_server_libs/support/scalars.cpp:297-303 | The text of that colour is the same again |
| HSVColors.FitsBuffer | graphql_vss_server_libs/support/scalars.cpp:299-301 | The text has at most 26 characters |
| HSVColors.RangesKept | graphql_vss_server_libs/support/scalars.cpp:305-333 | Through any sequence of succeeding or failing sets every channel with a value has one in its range |
| HSVColors.Failures | graphql_vss_server_libs/support/scalars.cpp:305-333 | A refused text changes nothing; a number out of range leaves at least the last channel alone |
| HSVColors.AcceptsExactly | graphql_vss_server_libs/support/scalars.cpp:307-318 | A text is taken apart iff it is spelled in the format, unless it ends early and the unassigned `used` equals its length |
| HSVColors.TakenByChance | graphql_vss_server_libs/support/scalars.cpp:308-311 | "hsv(1, 2%, 3)" is not of the format and yet sets the colour when `used` happens to be 13 |
| HSVColors.TestedTexts | graphql_vss_server_libs/tests/test_scalars.cpp:123-128 | The texts with many spaces and with a leading point are taken with the expected channels |
| HSVColors.HSVColor.SetChannels | graphql_vss_server_libs/support/scalars.cpp:321-333 | Channels are set one after the other up to the first outside 0 to 360 or 0 to 100 |
| HSVColors.HSVColor.ValidateRange | graphql_vss_server_libs/support/scalars.cpp:38-54 | Accepts exactly the closed range |
| HSVColors.HSVColor.SetFromText | graphql_vss_server_libs/support/scalars.cpp:305-319 | Sets the scanned numbers iff three were converted and the whole text was used |
| HSVColors.HSVColor.Str | graphql_vss_server_libs/support/scalars.cpp:297-303 | The formatted text, not cut by the buffer |

## Left out

- Objects that delete themselves: Dafny objects cannot be freed, so singletons, values and Refs live in an explicit memory of addresses, which are never reused.
- Locks, and the windows between `get` and the new Ref and inside `unref`: each call of the storage is one atomic step.
- Cyclic dependencies between singletons, a collection while a creation is still running, and futures that block a destructor.
- Dereferencing null Refs: only live Refs are copied or moved.
- Exceptions other than those the code answers: an unexpected one ends the program.
- SubscriptionOperation.GraphQLConnectionOperationSubscription.SubscribeThrows: the worker's write to `m_pendingDelivery` is one step with the rest; a stop at the same moment is not seen as a data race.
- What resolvers compute, GraphQL parsing, schema resolution and the choice between query and subscription: results are opaque.
- WebSocket++, asio, JSON, JWT, CommonAPI, DLT logging and debug output; a subscription over HTTP; closing handshakes.
- The collection timer of the server (`scheduleGarbageCollectIfNeeded`): only starts a collection later.
- Http.OneAnswer: an answer posted before the server closed the connection counts as sent, whether or not the client still reads it.
- Connection.GraphQLConnection.BeginStop: the order of m_operations is any order, and the loop is split into turns, since workers go on during its joins.
- Demangle.TemplateArgument: the argument counter does not wrap around after 2^32 commas.
- Numerals.ScansExactly: decimal numbers only; hexadecimal input, infinities and NaN, which `%lf` also reads, are not modelled.
- HSVColors.SetToText: channels are exact numbers; inexact doubles and signed zero are not modelled.
- Connection.NoEmptyHandler: a slot that another thread is already running when its connection is cleared, and a pool job that outlives its connection, are not modelled.
- `membername`, `demangle`, spin locks, permission storage, the dummy authorizer and type traits would only add easy members.
