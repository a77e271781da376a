# Verification of the rpcxx core

A Dafny model of three parts of the repository, with proofs that hold for every input, every schedule
and every run.

* **The future/promise engine** (`Future*.dfy`): resolvers, attachers and executors race on shared
  states. Every lock section and every call made outside a lock is one step of a machine with any
  number of threads; executors answer Done, Defer or Cancel as they like. The invariant is a set of
  conservation laws over the frames on all stacks, and from it follow exactly-once delivery, the meaning
  of pipelines, functor and memory conservation, and termination. `FutureRuntime` holds the
  methods that update the states, proved to be schedules of that machine under any interference between
  their lock sections. `FutureTeardown` is the destructor of a chain. `Gather` joins many results into one.
* **The JSON-RPC transport** (`Rpc*.dfy`, `Routes.dfy`): the client's pending table, the server's batch
  countdown (sections 4.1 and 6 of the JSON-RPC 2.0 Specification), the two composed into a full
  round, single requests answered through the future engine, and the dispatch of method names over mounted handlers.
* **The JSON document core** (`JsonTree`, `SortedObject`, `SortedMap`, `MsgPack*`, `Membuff`,
  `DeepEquality`, `MergePatch`, `Assign`, `View`, `Sax*`, `Arena`): the MessagePack dumper and parser, the sorted
  pair array behind objects, JSON Merge Patch (RFC 7396), assignment by path, the event-driven builder,
  and the bump allocator.

What the source updates in place is a class or an array method here, proved against a function on values;
the theorems are about that function. `dafny verify dfyconfig.toml` checks everything.

## What the proofs found

Places where the code does less than its documentation or the standard says, each with an input and with the
exact condition under which it does what is promised.

* A server batch sends its reply only when an answer arrives after the last part was visited, and without a
  handler it is not looked at. All whole runs of a batch reply if and only if there is a handler and the last
  part is a request (`RpcServer.AlwaysRepliesIff`, `RpcServer.NoHandlerNoReply`); `SendBatch` puts requests
  last, so its batches are always answered by a peer that has a handler.
* In a batch, a notification whose handler throws is answered with an error part without an id, which section
  4.1 of the JSON-RPC 2.0 Specification does not allow (`RpcServer.ThrowingNotification`). No notification is
  answered if and only if none of their handlers throws (`RpcServer.NotificationsUnansweredIff`).
* That error is lost when the handler of the last notification answers the last open request and then throws
  (`RpcServer.LostError`, `RpcServer.ReplyIsWholeIff`).
* A single request is answered by two messages if Send throws on its result, and by one if and only if it does
  not (`RpcResponse.OneAttemptIff`).
* A timeout charges whole milliseconds per check. Checks less than a millisecond apart never let a request
  expire (`RpcClient.HastyChecksNeverExpire`); no schedule of checks is late if and only if the timeout is 0
  (`RpcClient.NeverLateIff`), and a schedule charges exactly the time that passes if and only if its gaps are
  whole milliseconds (`RpcClient.ChargedExactlyIff`).
* A request is also charged for the time since the last check before it was sent. No schedule of checks
  expires it early if and only if it was sent at the moment of a check, or its timeout is 0, or it has none
  (`RpcClient.NeverEarlyIff`); at worst it expires in the instant it was sent (`RpcClient.ExpiresAtOnce`).
* `ClearAllPending` settles all promises and leaves the table as it is, so it empties it only if it was empty
  (`RpcClient.ClearKeepsEntries`).
* Promise handles are counted in a short: the counter is right if and only if there are fewer than 2^15, and
  whether a dropped handle was the last is told rightly up to 2^16 handles and not beyond
  (`FutureTheorems.ShortCounterIff`, `FutureTheorems.LastDropIff`).
* `MergePatch` needs one level more depth than a patch that is not an object has, and `MergePatch.Need`
  levels in general: it succeeds if and only if it gets them (`MergePatch.NeedBound`, `MergePatch.Patch`).
* `Assign` with index 2^32 - 1 on null or on a shorter array resizes to 0 and then uses the element
  (outcome `Overflow`; `Assign.FailsIff` says exactly when, `Assign.OverflowWitness` shows an input).
* An ext item of length 2^32 - 1 is consumed whole but its view has length 0
  (`MsgPackTheorems.ExtIsWhole`, `MsgPackTheorems.ExtWraps`).
* A sink of capacity 0 never gets room, whoever grows it by its own size (`Membuff.MakesRoomIff`).

## Model

| member | source | states |
|---|---|---|
| FutureTheorems.ContinuationRunsExactlyOnce | src/future.cpp:67-101 | in every interleaving a continuation runs at most once and only on a resolved state; once all threads are idle it has run exactly once wherever it was attached, resolved and not cancelled: no wake-up is lost |
| FutureTheorems.PromiseSettlesOnce | include/future/future.hpp:177-197 | the promise counter is the number of live handles, exactly one resolution wins, and a state without handles is resolved |
| FutureTheorems.ShortCounterIff | include/future/future.hpp:80 | counted in a short, the number of handles is right if and only if it is below 2^15 |
| FutureTheorems.LastDropIff | include/future/future.hpp:389-400 | the short tells the last handle from the others for every number up to k if and only if k is at most 2^16 |
| FutureTheorems.WaiterHearsExactlyOnce | include/future/future.hpp:303-404 | whoever waits with AtLast hears back exactly once when all handles of the promise are gone, whether it was resolved, rejected or dropped |
| FutureTheorems.ResultIsFinal | include/future/future.hpp:177-197 | a stored result is never replaced |
| FutureTheorems.PipelineIsSequential | include/future/future.hpp:466-519 | in every reachable state each stored result is the sequential composition of the functions before it |
| FutureTheorems.PipelineDelivers | include/future/future.hpp:449-565 | once idle, every state whose own feeders were neither cancelled nor abandoned holds exactly its meaning, whatever was cancelled elsewhere: errors skip Then functions and reach Try functions, throws become errors, returned futures are spliced in |
| FutureTheorems.DeliversIff | src/future.cpp:67-101 | once idle, a state is resolved if and only if what feeds it was undisturbed and its meaning is there; behind a cancelled or abandoned continuation it never is |
| FutureTheorems.OrderDoesNotMatter | src/future.cpp:67-101 | two runs that give the sources the same results agree on every state undisturbed in both, whatever the order of attaching and resolving |
| FutureTheorems.LinkStores | include/future/future.hpp:466-519 | by kind and functor alone, in every reachable state: behind a Then link an error arrives as it is; otherwise the target has what the functor returned or threw for the result before it, or the result of the future it returned |
| FutureTheorems.LinkDelivers | include/future/future.hpp:449-565 | once idle, behind a continuation that was attached and not cancelled, the target has that result as soon as it is there, and none if nothing arrived |
| FutureTheorems.ExecutorIsAsked | src/future.cpp:67-101 | a continuation attached with an executor is handed to it when it is claimed, any other is run where it was claimed |
| FutureTheorems.ExecutorDecides | src/future.cpp:86-97 | the answer of the executor decides: the job runs on this thread, waits on another, or is dropped and its functor deleted |
| FutureTheorems.HandlesMove | include/future/future.hpp:303-404 | copying, moving, swapping and dropping handles changes the handles named and no others |
| FutureTheorems.FunctorsAreConserved | include/future/future.hpp:281-298 | functors allocated are functors deleted plus those stored or carried by a thread, at every moment; no frame touches a dead state |
| FutureTheorems.NothingLeaks | src/future.cpp:29-65 | once threads are idle and users hold nothing, states die one after the other, each because its last reference went, until all are dead and every functor allocated was deleted once |
| FutureTheorems.InternalRunsAreBounded | src/future.cpp:67-101 | the engine's own steps end, whatever the executors answer |
| FutureTheorems.ReachesIdle | src/future.cpp:67-101 | from every reachable state some schedule makes all threads idle |
| FutureTheorems.RunInv | include/future/future.hpp:281-298 | every run keeps all conservation laws and all references alive |
| FutureSteps.StepKeepsInv | include/future/future.hpp:303-404 | every single step keeps the invariant: handle copies, moves, swaps and drops, attaching, resolving, running, cancelling, destroying |
| FutureRuntime.Runtime.Fulfil | include/future/future.hpp:177-197 | the lock section stores the result if it is the first, and says so |
| FutureRuntime.Runtime.Install | include/future/future.hpp:281-298 | attaching publishes the continuation, or refuses a second one and deletes its functor |
| FutureRuntime.Runtime.ContinueChain | src/future.cpp:67-101 | under any interference of other threads, executors and users between lock sections, the claim-then-run loop is a schedule of the machine, ends, and keeps the invariant |
| FutureRuntime.Runtime.Turn | src/future.cpp:69-100 | one turn claims under the lock and either runs the continuation, hands it to the executor, or finds nothing to do; it goes on only if a continuation ran that had not run before |
| FutureRuntime.Runtime.Execute | src/future.cpp:86-97 | the claimed job is run inline, deferred to another thread, or dropped with its functor deleted, as the executor likes |
| FutureRuntime.Runtime.RunContinuation | include/future/future.hpp:449-565 | running a continuation, with others acting between its steps, resolves the next state or splices the returned future before it, and deletes the functor; its state runs no second time |
| FutureTeardown.Destroy | src/future.cpp:29-37 | with k the number of leading chain nodes that have one reference: those k are destroyed and deleted once, each with its functor, node k loses one reference and nothing else, and all nodes behind it are as they were; destructors never nest deeper than one call |
| Gather.Context.Handle | include/future/gather.hpp:101-125 | while unresolved, `left` counts the inputs that have not succeeded; the promise is resolved at most once |
| Gather.GatherAll | include/future/gather.hpp:141-168 | if all inputs succeed the values in input order; otherwise the error of the first failure in the order of completion |
| Gather.OrderDoesNotMatter | include/future/gather.hpp:101-125 | the gathered vector does not depend on the order of completion |
| RpcClient.FirstEventWins | src/rpcxx/transport.cpp:214-237 | over every run a waiting promise ends with the first event for its own id (response, timeout, cancel, id reuse, teardown), found without looking at the table |
| RpcClient.EventByEvent | src/rpcxx/transport.cpp:214-374 | event by event, for a waiting request: cancelled by ClearAllPending, broken by destruction, timed out by the reuse of its id or by a check that passes at least its remaining milliseconds, settled by an answer with its id, and otherwise left with its time less the milliseconds passed |
| RpcClient.EveryRequest | src/rpcxx/transport.cpp:341-350 | the same for a request sent anywhere in a whole run |
| RpcClient.RunKeepsInv | src/rpcxx/transport.cpp:265-272 | every promise handed in is settled or waits in the table, and waits under one id only |
| RpcClient.SettledIsFinal | src/rpcxx/transport.cpp:286-291 | how a promise ended never changes |
| RpcClient.TeardownSettlesAll | src/rpcxx/transport.cpp:52-55 | after destruction every promise ever handed in is settled |
| RpcClient.UselessResponse | src/rpcxx/transport.cpp:214-237 | a response changes nothing exactly when its id is not pending or it cannot be read; a second one with its id never does |
| RpcClient.ClearKeepsEntries | src/rpcxx/transport.cpp:286-291 | cancelling settles every entry and keeps it; a later response settles nothing and removes its entry |
| RpcClient.ExpiresWhenCharged | src/rpcxx/transport.cpp:357-374 | a request expires at the first check at which the charged milliseconds reach its timeout, and never without a timeout |
| RpcClient.TimeLeft | src/rpcxx/transport.cpp:364-368 | the remaining time of a waiting entry is its timeout less the charged milliseconds, and positive |
| RpcClient.ChargedLags | src/rpcxx/transport.cpp:359-361 | charged time never passes the time since the last check before sending, and lags by less than a millisecond per check |
| RpcClient.ExpiresEarlyByAtMost | src/rpcxx/transport.cpp:359-372 | a request sent d after the last check expires no earlier than its timeout less d after its own sending |
| RpcClient.NeverEarlyIff | src/rpcxx/transport.cpp:359-372 | no schedule of checks expires a request before its time if and only if it was sent at a check, its timeout is 0, or it has none |
| RpcClient.NeverLateIff | src/rpcxx/transport.cpp:359-372 | no schedule of checks misses the time of a request if and only if its timeout is 0 |
| RpcClient.ChargedExactlyIff | src/rpcxx/transport.cpp:359-361 | a schedule charges exactly the time that passes if and only if every gap is whole milliseconds |
| RpcClient.ExpiresAtOnce | src/rpcxx/transport.cpp:359-372 | that bound is reached: sent when the last check is a whole timeout ago, a request can expire in the same instant |
| RpcClient.HastyChecksNeverExpire | src/rpcxx/transport.cpp:360-366 | checked more often than once a millisecond, a request never expires |
| RpcClientCode.Transport.AddPending | src/rpcxx/transport.cpp:265-272 | an id used again first settles the old promise with a timeout; the id, the counter, the entry and the outcomes afterwards are given field by field |
| RpcClientCode.Transport.SendMethod | src/rpcxx/transport.cpp:341-350 | registers the promise under the id that is sent, in a part with that id, the name and the parameters |
| RpcClientCode.Transport.SendBatch | src/rpcxx/transport.cpp:303-330 | notifications first, then requests with consecutive ids, each part given by its members; too large a batch sends nothing and breaks its promises |
| RpcClientCode.Transport.HandleResponse | src/rpcxx/transport.cpp:214-237 | accepts exactly the parts that answer a pending id, and settles its promise |
| RpcClientCode.Transport.Receive | src/rpcxx/transport.cpp:248-263 | every request that waits ends with the first answer to it in a batch led by a response, or in a single response, and waits on as before if there is none; a message that leads with a method changes nothing and goes to the server side; what is neither, and a single response that answers nothing, is refused |
| RpcClientCode.Transport.CheckTimeouts | src/rpcxx/transport.cpp:357-374 | erasing while walking, in any order, charges or expires every entry once |
| RpcClientCode.Transport.ClearAllPending | src/rpcxx/transport.cpp:286-291 | settles every waiting promise and keeps the entries |
| RpcClientCode.Transport.Destroy | src/rpcxx/transport.cpp:52-55 | breaks every promise that still waits |
| RpcResponse.ExactlyOneResponse | src/rpcxx/transport.cpp:78-128 | an id-carrying request gets exactly the messages of one sendResult: the first part has its id and the result or error that won; a second part, with its id and the error Send threw, follows exactly when a result was refused; whether the handler resolves, rejects or drops the promise; a notification gets none, and nothing is sent after teardown |
| RpcResponse.OneAttemptIff | src/rpcxx/transport.cpp:78-91 | sendResult sends the response alone if and only if Send does not throw on a result |
| RpcResponse.DroppedIsBroken | src/rpcxx/transport.cpp:103-128 | a promise that nobody called, as where there is no handler, is answered with the broken-promise error |
| RpcResponse.ResultWasGiven | include/future/future.hpp:389-403 | the stored result is one the promise was called with, or the broken promise |
| RpcResponse.AnswersAreRuns | src/rpcxx/transport.cpp:78-91 | over any run a request is answered as often as its continuation runs, always with the stored result |
| RpcServer.RunKeepsInv | src/rpcxx/transport.cpp:141-212 | `left` is parts not visited plus requests not answered, in every run; at most one reply, only when all is answered, and after it only a handler can still return |
| RpcServer.OthersAnsweredIff | src/rpcxx/transport.cpp:183-210 | a part that is no request has a part in the reply if and only if processing it threw, and then that error without an id |
| RpcServer.ThrownAtIff | src/rpcxx/transport.cpp:183-210 | what processing a part threw, told by the acts of the run: the visit to that part or the return of its handler |
| RpcServer.NotificationsUnansweredIff | src/rpcxx/transport.cpp:183-210 | no notification of a batch, with a null id or none, is answered if and only if no act of the run throws while one is processed |
| RpcServer.ThrowingNotification | src/rpcxx/transport.cpp:202-209 | the input: the error of a throwing notification stands in the reply |
| RpcServer.ReplyIsWholeIff | src/rpcxx/transport.cpp:141-212 | the reply holds all that was collected if and only if the run does not end with a handler that throws |
| RpcServer.LostError | src/rpcxx/transport.cpp:141-212 | the input that loses an error: the last notification answers the request and then throws |
| RpcServer.ReplyHolds | src/rpcxx/transport.cpp:152-164 | the one reply is the collected parts in order, every request's part among them |
| RpcServer.AlwaysRepliesIff | src/rpcxx/transport.cpp:171-212 | every whole run sends exactly one reply if and only if there is a handler and the batch ends in a request |
| RpcServer.NoHandlerNoReply | src/rpcxx/transport.cpp:179-180 | without a handler no batch is answered |
| RpcServer.RepliesIffLastMoveAnswers | src/rpcxx/transport.cpp:158-164 | a run sends its reply exactly when its last move, apart from handlers returning, is an answer |
| RpcServer.EveryRequestIsAnswered | src/rpcxx/transport.cpp:141-167 | in a complete run every request has exactly one part in the reply, with its own id and its own answer |
| RpcServer.ReplyAnswersEveryId | src/rpcxx/transport.cpp:141-167 | for a part with a method and any id that is not null, strings among them: a reply holds one part for it, with that id and the result or error of the only answer given |
| RpcServerCode.ServerBatch.AddBatchResp | src/rpcxx/transport.cpp:141-167 | collects one part, counts down, and sends at zero |
| RpcServerCode.ServerBatch.VisitPart | src/rpcxx/transport.cpp:181-209 | uncounts a part, counts a request again, turns an unreadable part into an error part |
| RpcServerCode.ServerBatch.LeavePart | src/rpcxx/transport.cpp:191-209 | a notification handler returns, or its exception becomes an error part behind whatever was answered meanwhile |
| RpcServerCode.ServerBatch.HandleServerBatch | src/rpcxx/transport.cpp:171-212 | nothing at all without a handler; otherwise the loop, with answers arriving anywhere inside it, is a run of the countdown |
| RpcRoundTrip.BatchRoundTrip | src/rpcxx/transport.cpp:303-330 | client, server and back: one reply comes, and receiving it as a batch settles each promise with the answer to its own request, in whatever order the answers were given and whatever the client does meanwhile short of settling that request |
| RpcRoundTrip.QuietBetween | src/rpcxx/transport.cpp:214-237 | for that it is enough that no other response, cancelling or teardown meets the request, the checks charge less than its timeout, and fewer than 2^64 - 2^32 requests follow |
| RpcRoundTrip.SentBatchEndsInRequest | src/rpcxx/transport.cpp:313-324 | a batch that holds any request ends in one, and a batch is never taken for responses |
| RpcRoundTrip.Registered | src/rpcxx/transport.cpp:318-320 | the requests of a batch wait under consecutive ids, none overwriting another, even across the wrap-around of the counter |
| Routes.SanitizeSlashes | src/rpcxx/handler.cpp:82-102 | writes in bounds and leaves the non-empty components joined by single slashes |
| Routes.SanitizeTwice | src/rpcxx/handler.cpp:79-102 | sanitizing is idempotent, and equal exactly for names with the same components |
| Routes.ComponentsOf | src/rpcxx/handler.cpp:79-102 | components are words: a word is one, and a slash puts the components before it in front of those behind it |
| Routes.OneChain | src/rpcxx/handler.cpp:104-119 | exactly one chain of mounted handlers follows the components until one is left or the next is not mounted |
| Routes.Handle | src/rpcxx/handler.cpp:104-129 | ends on every mount graph, cycles included: each handler on the way is mounted in the one before under the next component, and the walk stops only where one component is left or the next is not mounted, with the components that are left |
| SortedObject.InsertIsUpdate | include/json_view/algo.hpp:68-85 | insertion is dictionary update: a repeated key keeps its last value |
| SortedObject.InsertKeepsSorted | include/json_view/algo.hpp:68-85 | insertion keeps the keys strictly sorted |
| SortedObject.SortedInsertJson | include/json_view/algo.hpp:68-85 | the array with memmove becomes the inserted list, and the slots behind stay; a full array is enough for a key that is there |
| SortedObject.LowerBoundJson | include/json_view/algo.hpp:62-65 | finds the only position that splits the keys |
| SortedObject.SortedFind | include/json_view/json_view.hpp:404-421 | finds the value of a key, or nothing exactly when the key is absent |
| SortedMap.InsertAnyOrder | include/json_view/json.hpp:468-484 | a view of an unordered object is the same whatever the order of iteration |
| SortedMap.AtIff | include/json_view/json_view.hpp:404-421 | a lookup finds exactly the pair that is there |
| JsonTree.LessIff | include/json_view/json_view.hpp:308-312 | the order of keys is lexicographic by bytes |
| MsgPackTheorems.RoundTrip | src/json_view/parse_msgpack.cpp:136-257 | parsing encoding ++ rest consumes exactly the encoding and gives the document, non-negative signed integers turned unsigned |
| MsgPackTheorems.TooDeepIsRejected | src/json_view/parse_msgpack.cpp:136-143 | with less depth than the height of the document its encoding is rejected as too deep |
| MsgPackTheorems.DumpParseDump | src/json_view/dump_msgpack.cpp:132-219 | parsing succeeds exactly with depth enough, and dumping the result gives the same bytes |
| MsgPackTheorems.CanonicalForm | src/json_view/dump_msgpack.cpp:181-193 | the normal form of a document has the bytes of the document |
| MsgPackTheorems.DumpIsShortest | src/json_view/dump_msgpack.cpp:74-130 | whatever input without ext and float32 items gave a document, dumping that document is no longer than what was consumed |
| MsgPackFormat.ParseOne | src/json_view/parse_msgpack.cpp:136-257 | total on every byte string: never past the end, at least one byte on success, well-formed and no deeper than allowed |
| MsgPackTheorems.ExtIsWhole | src/json_view/parse_msgpack.cpp:101-109 | an ext item is taken with its type byte and all its data exactly if the data is not 2^32 - 1 bytes long |
| MsgPackTheorems.ExtWraps | src/json_view/parse_msgpack.cpp:101-109 | the input that shows it: 2^32 - 1 bytes of data are consumed and the view is empty |
| MsgPackFormat.BigRoundTrip | src/json_view/dump_msgpack.cpp:32-56 | big-endian bytes read back as the number |
| MsgPackForms.BigEndianAt | src/json_view/dump_msgpack.cpp:32-56 | each byte is the digit of its weight, the most significant first |
| MsgPackForms.BigBytes | src/json_view/parse_msgpack.cpp:59-82 | writing back the number that was read gives the same bytes |
| MsgPackForms.HeadAlone | src/json_view/parse_msgpack.cpp:147-222 | null, booleans, small integers and the head that is not allowed |
| MsgPackForms.UnsignedItem | src/json_view/parse_msgpack.cpp:152-155 | 1, 2, 4 and 8 byte unsigned integers in every form, the shortest or not |
| MsgPackForms.SignedItem | src/json_view/parse_msgpack.cpp:156-159 | 1, 2, 4 and 8 byte signed integers, negative or not, are read in two's complement |
| MsgPackForms.DoubleItem | src/json_view/parse_msgpack.cpp:161 | a double is its eight bytes |
| MsgPackForms.SizedItem | src/json_view/parse_msgpack.cpp:162-167 | strings and binary data behind a length of 1, 2 or 4 bytes |
| MsgPackForms.ShortString | src/json_view/parse_msgpack.cpp:205-215 | strings with their length in the head |
| MsgPackForms.FixedExt | src/json_view/parse_msgpack.cpp:172-176 | ext items of fixed size are the type byte and the data |
| MsgPackForms.SizedExt | src/json_view/parse_msgpack.cpp:177-179 | ext items with a length are the type byte and the data, except at 2^32 - 1 bytes of data |
| MsgPackForms.ContainerItem | src/json_view/parse_msgpack.cpp:168-171 | arrays and objects with a count of 2 or 4 bytes hand over to that many elements |
| MsgPackForms.SmallContainer | src/json_view/parse_msgpack.cpp:195-204 | arrays and objects with the count in the head |
| MsgPackForms.ParseMore | src/json_view/parse_msgpack.cpp:136-257 | what was parsed does not depend on what follows |
| MsgPackForms.CutOffIsRejected | src/json_view/parse_msgpack.cpp:136-257 | an encoding that is cut off anywhere is rejected, with any depth |
| MsgPackFloats.WidenIsExact | src/json_view/parse_msgpack.cpp:160 | a float becomes a double of the same sign and exactly the same value, normal or subnormal; infinities stay infinite and NaNs stay NaNs |
| MsgPackFloats.FloatItem | src/json_view/parse_msgpack.cpp:160 | a float item is read as that double |
| MsgPackCode.DumpInto | src/json_view/dump_msgpack.cpp:132-219 | through any sink and buffer size the bytes pushed are the encoding, or a prefix of it exactly when the document is too deep |
| MsgPackCode.WriteString | src/json_view/dump_msgpack.cpp:74-89 | pushes the shortest header and the bytes |
| MsgPackCode.WriteNegInt | src/json_view/dump_msgpack.cpp:91-107 | pushes the shortest form of a negative integer |
| MsgPackCode.WritePosInt | src/json_view/dump_msgpack.cpp:109-125 | pushes the shortest form of a non-negative integer |
| Membuff.Out.Write | include/membuff/membuff.hpp:160-183 | whatever grows or is flushed on the way, the total is the old total and the data |
| Membuff.Out.Grow | include/membuff/membuff.hpp:91-124 | growing or flushing loses nothing and makes room |
| Membuff.MakesRoomIff | include/membuff/membuff.hpp:160-183 | every sink gets room by growing if and only if its capacity is not 0 |
| Membuff.Out.WriteByte | include/membuff/membuff.hpp:195-204 | appends one byte |
| MsgPackParser.State.One | src/json_view/parse_msgpack.cpp:136-227 | returns the specified view or reason and leaves the pointer where specified |
| MsgPackParser.State.Array | src/json_view/parse_msgpack.cpp:247-257 | fills a fresh array with the elements, or stops at the first that fails |
| MsgPackParser.State.Pair | src/json_view/parse_msgpack.cpp:233-241 | one key and value inserted into what was read so far |
| MsgPackParser.State.Object | src/json_view/parse_msgpack.cpp:229-245 | inserting pair by pair in place gives the specified object |
| MsgPackObjects.ObjectIsDictionary | src/json_view/parse_msgpack.cpp:229-245 | an object is accepted exactly if all its pairs are read, and then it is the dictionary of the pairs sent, the last of a key winning |
| MsgPackObjects.FindInParsed | include/json_view/json_view.hpp:404-421 | binary search in a parsed object finds the last occurrence of a key, or nothing exactly when it was never sent |
| DeepEquality.RoundTripIsEqual | src/json_view/algo.cpp:106-201 | dump then parse is equal by the library's own comparison, and one level less depth makes both sides refuse |
| DeepEquality.EqualMeansSameNorm | src/json_view/algo.cpp:106-201 | without doubles, equal exactly when the normal forms are the same |
| DeepEquality.EqualMeansSameBytes | src/json_view/algo.cpp:106-201 | without doubles, equal exactly when dumped to the same bytes |
| DeepEquality.NeedsDepth | src/json_view/algo.cpp:106-108 | equality is never reported without depth enough for the left side |
| DeepEquality.DoublesEqualIff | src/json_view/algo.cpp:148-170 | a double equals a double if both are NaN, both infinite, or they are nearer than the margin; it equals an integer of either kind, on either side, if it is near that integer; and nothing else |
| DeepEquality.EqualBothWays | src/json_view/algo.cpp:106-201 | equality of whole documents does not depend on the order of its sides |
| MergePatch.SelfMerge | include/json_view/json.hpp:402-405 | merge(p, p) = merge(absent, p): copying a new value with its nulls first is harmless |
| MergePatch.MergeAt | include/json_view/json.hpp:386-410 | member by member as RFC 7396, section 2: null removes, other values merge, the rest stays |
| MergePatch.PatchedIff | include/json_view/json.hpp:386-410 | RFC 7396, section 2, as a relation by lookups (a patch that is no object is the result; under an object null members are absent, others are patched, the rest stays; what is no object counts as an empty one) holds of exactly one canonical document, the one computed |
| MergePatch.MergeTwice | include/json_view/json.hpp:386-410 | a patch applied twice is the patch applied once |
| MergePatch.NeedBound | include/json_view/json.hpp:389-409 | one level more than the patch has is always enough, and needed when it is no object |
| MergePatch.NeedIff | include/json_view/json.hpp:389-409 | a depth is enough exactly if it has a level for the patch and below it room for copying what is no object or not there, and for patching every member |
| MergePatch.Patch | include/json_view/json.hpp:386-410 | succeeds exactly with the needed depth, and then the result stands in the relation of RFC 7396, section 2, to target and patch; otherwise the members before some member are merged, that one is broken off itself, and the rest is untouched |
| MergePatch.MutableJson.MergePatch | include/json_view/json.hpp:386-410 | the same in place, depth and relation stated without the functions that compute them, with the document left as described when DepthError is thrown |
| MergePatch.Copy | include/json_view/json.hpp:504-553 | a copy is equal to its source and succeeds exactly with depth for its height |
| Assign.Document.Assign | include/json_view/json.hpp:640-676 | after assigning, the path leads to the value; a type mismatch leaves the whole document unchanged |
| Assign.FailsIff | include/json_view/json.hpp:640-676 | Assign mismatches exactly if the walk gets to a value that is neither null nor of the part's kind, and overflows exactly if it gets to a null or an array without element 2^32 - 1 and is asked for it |
| Assign.OverflowWitness | include/json_view/json.hpp:656-664 | the inputs that fail; a path without index 2^32 - 1 never overflows |
| View.ViewFinds | include/json_view/json.hpp:444-502 | a lookup by path in the view finds the view of what the lookup in the mutable tree finds, for sorted and unsorted object containers |
| View.AssignThenView | src/json_view/json_view.cpp:34-46 | after Assign, a lookup through the view finds what was assigned, and unrelated paths are seen unchanged |
| View.MakeView | include/json_view/json.hpp:444-502 | View succeeds exactly with depth for the height, and gives the sorted view of the whole tree |
| Assign.GetPut | src/json_view/json_view.cpp:34-46 | what was assigned is what a lookup finds |
| Assign.PutGet | include/json_view/json.hpp:640-676 | assigning what is there changes nothing |
| Assign.PutPut | include/json_view/json.hpp:640-676 | the last assignment wins |
| Assign.PutFrame | include/json_view/json.hpp:640-676 | every path that resolved and is neither above nor below keeps its value |
| Assign.PutElsewhere | include/json_view/json.hpp:640-676 | every path that leaves the assigned one, found before or not: other members and elements are as they were, and the elements an array gained in between are null |
| Assign.Resized | include/json_view/json.hpp:663-666 | an array grown for an index keeps its elements and gains nulls |
| Sax.EventsBuild | src/json_view/parse_json.cpp:61-165 | from any state the events of a tree restore the stack and add exactly the tree; deeper nesting is the depth error; the assertions never fail |
| Sax.DocumentBuild | src/json_view/parse_json.cpp:61-165 | from the handler as it is made, the events of a document leave its tree as the result |
| Sax.AddMeans | src/json_view/parse_json.cpp:112-123 | a value alone is the result, in an array it comes last, in an object it replaces what its key had, and nothing else changes |
| Sax.BuildMeans | src/json_view/parse_json.cpp:61-165 | scalars stay, elements keep their places, and a key has the tree of the last value sent for it |
| Sax.BuildIsCanonical | src/json_view/parse_json.cpp:99-110 | what is built has strictly sorted keys everywhere, the last of a repeated key kept |
| Sax.BuildCanonical | src/json_view/parse_json.cpp:61-165 | a canonical document comes back as it was |
| SaxCode.SaxHandler.HandleTree | src/json_view/parse_json.cpp:61-200 | the handler with its doubling buffers adds the tree of the recursive build exactly when it is not nested too deep; for a whole document that tree is the result |
| SaxCode.SaxHandler.Handle | src/json_view/parse_json.cpp:112-181 | every event is a step of the stack machine |
| SaxCode.SaxHandler.DoAdd | src/json_view/parse_json.cpp:112-123 | adds a value to the open container, growing its buffer when full |
| Arena.Allocator.DoAlloc | include/json_view/alloc.hpp:120-129 | the region is aligned, owned, apart from every other since the last clear and from the free tail |
| Arena.Allocator.MoveIn | include/json_view/alloc.hpp:99-104 | regions and blocks change hands and stay valid; the other arena is left empty |
| Arena.Allocator.NewBlock | include/json_view/alloc.hpp:108-111 | the new block is the tail, and what was given stays owned |

## Left out

- Memory orderings, storage of type-erased functors and weak references: lock sections are atomic, references are reachability.
- A Future copied through its public state pointer, or a continuation that returns an invalid Future: the model has one Future handle per state and only valid returned futures.
- A continuation given to AtLast that throws terminates the program and is not modelled.
- FutureMachine.ValidProgram: links and returned futures are ranked, so a functor that returns a future waiting on its own chain (in the source, a cycle that never resolves) is excluded.
- FutureMachine.Enabled: an executor that defers a job either starts or drops it; one that keeps it forever only delays the run.
- FutureTeardown.Destroy: one thread; other owners do not drop their reference at the same time, and what a functor has captured is not destroyed with it.
- Memory exhaustion: every allocation succeeds.
- Membuff.Out.Write: growing and flushing never fail, so the error left by a failed Grow does not occur.
- Membuff.Out.constructor: a starting size of 0 is excluded; Membuff.MakesRoomIff says why.
- Membuff input, which the parsers read through when they do not parse in place.
- MsgPackFormat.ParseOne: NaNs of float items are made quiet, and their payloads are kept; MsgPackFloats.WidenIsExact states no more of a NaN than that it stays one.
- DeepEquality.Deep: the tests |a - b| < margin, isnan and isinf are parameters, of which only what IEEE 754 gives them is used: a finite number is near itself, nearness is symmetric and false for what is not finite.
- Custom and discarded views in the dumper, and the JSON text grammar and number printing, which rapidjson does.
- The sorting constructor of object views, Flatten, Unflatten, and the textual form of paths.
- MutableJson and Document: nested nodes are values inside their owner, so a reference kept into the tree is not modelled.
- Assign.Document.Assign: for an absent element 2^32 - 1, where the source uses an element out of range, only the outcome is stated.
- Conversions from and to C++ types, middlewares, exception handlers and the OnForward hooks.
- RpcClientCode.Transport.Receive: hands a request to the server side and says no more of it; the server side is RpcServer for batches and RpcResponse for single requests. The numeric id is an integer, and a `TimeoutHappened` overridden by a subclass is not modelled.
- RpcResponse.ExactlyOneResponse: the exception that NoServerFound throws besides dropping the promise is not modelled.
- FutureMachine.Do: counts promises without bound; FutureTheorems.LastDropIff says how far the source's short agrees.
- RpcServer: a Send that throws is logged by the source and not tried again, so it counts as sent; copies of parts into the batch's arena never throw; a request is uncounted and counted again in one step.
- Gather.GatherAll: executors that drop a handler; the tuple form, which counts up instead of down.
- Routes: mounts do not change during a dispatch.
- Arena: allocations of zero bytes, and alignments above that of max_align_t; the list nodes that hold block addresses.
