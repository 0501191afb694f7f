# What libuv's data structures and protocols promise, proved

A Dafny model of the parts of the Unix event loop library whose correctness does not depend
on the operating system, and proofs of what they promise. Each module names the source file it
follows. `dafny verify dfyconfig.toml` checks everything.

- **Pointer structures.** `LinkedTree`, `RedBlack`, `RbTree`, `RbSearch` are the red-black tree
  of include/tree.h; `SplayShape`, `Splay`, `SplayCost` its splay tree; `HeapShape`, `HeapLinks`,
  `Heap` the linked heap of src/heap-inl.h; `Queue` the intrusive list of src/queue.h. Nodes live
  in a store indexed by id, and every pointer write of the source is a write to that store. A
  pointer that is followed goes through `Addr`, which asks that it is not null. Comparison
  functions are integer keys.
- **Concurrent protocols.** `Async` with `AsyncProgress` (src/unix/async.cpp), `ThreadPool` with
  `ThreadPoolSafety`, `ThreadPoolProgress` and `ThreadPoolCancel` (src/threadpool.cpp) and `Signal`
  with `SignalSafety`, `SignalDelivery` and `SignalProgress` (src/unix/signal.cpp) are step
  relations: a step is one critical section or one shared access, a run is any interleaving, with
  any number of threads, workers, loops, handles and requests. The Safety modules say what every
  run keeps, the Progress modules what every run comes to once nobody outside interferes.
  `SignalTree` is the signal handler and the tree of watchers. `AsyncMeasure` holds the weights
  two of the progress proofs share.
- **Texts and parsers.** `InetText` and `Inet` print and read IPv4 and IPv6 addresses
  (src/inet.cpp); `Socks` is the SOCKS5 parser of the sample proxy.
- **Event-loop state machines.** `Timers`, `Stream` with `StreamModel`, `Watchers`, `Handles`,
  `FsPoll`, `IoTable` with `Words`. User callbacks are arbitrary finite sequences of calls of the
  interface, made while the loop is in the middle of its work.

Words of the model: `InOrder` is the in-order sequence of a tree's nodes; `IsInsertion(xs, ys, x)`
says that ys is xs with x put in somewhere; a function that returns the new state, such as
`Started` or `Added`, is what a method's contract equates the new state with, and the lemmas state
what that function means; `Grows(v0, v)` says that a stream took nothing back: callbacks made, bytes
written, recorded data and errors and the order of requests are kept; `Told(v)` is the row of statuses
callbacks were given, followed by those the completed requests have coming.

Three findings about the code:

- **A blocking stream can abort.** The assertion at src/unix/stream.cpp:1067 says that a blocking
  stream has nothing queued after a write. A write that fails leaves its bytes counted in
  `write_queue_size` until its callback, so a second write before that callback fails the
  assertion. `Stream.Stream.Submit` states when a write aborts: if and only if the descriptor is
  open, the stream is blocking and not connecting, and `write_queue_size` was not zero;
  `Stream.BlockingAborts` makes it happen.
- **The largest descriptors do not fit the table.** src/unix/core.cpp:802 admits descriptors up to
  INT_MAX - 1, but for that one the rounding to a power of two wraps to zero.
  `IoTable.TableFits` states for which descriptors the table is not empty: all others.
  `IoTable.IoLoop.Start` registers a watcher if and only if its descriptor is one of those.
- **An empty SOCKS5 field takes a byte too many.** A method list, name, password or host name of
  length zero makes the parser consume one byte more than the message has. `Socks.HelloRead`,
  `Socks.CredentialsRead` and `Socks.RequestRead` each state it as an if-and-only-if: a message is
  read to its last byte exactly when none of its fields is empty (and a request does not ask to
  bind). `Socks.Greeting`, `Socks.Login` and `Socks.Request` say what is consumed for every input.

## Model

| member | source | states |
|---|---|---|
| RbTree.Insert | include/tree.h:594-623 | In-place insertion, for every tree: parent links, search order and the colour rules hold after it, and the in-order sequence gains exactly elm; if a node with an equal key exists it is returned and nothing is written |
| RbTree.Remove | include/tree.h:526-591 | In-place removal of any node: links and colour rules hold after it and the in-order sequence loses exactly that node, the others keeping their order |
| RbTree.InsertColor | include/tree.h:403-445 | From a tree whose only fault is a red node under a red parent, the loop reaches a red-black tree with the same in-order sequence |
| RbTree.RemoveColor | include/tree.h:447-524 | From a tree in which one subtree is short of one black node, the loop reaches a red-black tree with the same in-order sequence |
| LinkedTree.TreeStore.RotateLeft | include/tree.h:338-356 | The link writes of a rotation turn the store of a tree into the store of the rotated tree, parent links included, wherever the rotated node is |
| LinkedTree.TreeStore.RotateRight | include/tree.h:358-376 | The same for the other direction |
| RedBlack.HeightBound | include/tree.h:50-58 | A red-black tree is at most 2 lg(n+1) high: two to the height is at most (n+1) squared |
| RbSearch.Find | include/tree.h:624-640 | Returns a node with the key, or null if and only if there is none |
| RbSearch.NFind | include/tree.h:642-661 | Returns the first node in order whose key is not below the given one, or null |
| RbSearch.Next | include/tree.h:663-683 | Returns the in-order successor of a node, found by links alone |
| RbSearch.Prev | include/tree.h:685-705 | Returns the in-order predecessor |
| RbSearch.Min | include/tree.h:707-721 | Returns the first node in order, or null for an empty tree |
| RbSearch.Max | include/tree.h:707-721 | Returns the last node in order, or null for an empty tree |
| Heap.Heap.Insert | src/heap-inl.h:102-144 | The new node goes to the first free position, found by the bits of the count; the tree stays complete and ordered, its node set gains exactly that node |
| Heap.Heap.Remove | src/heap-inl.h:146-233 | Removal of any node: the last node takes its place and is sifted down and then up; the tree stays complete, linked and ordered, its node set loses exactly that node |
| Heap.Heap.Min | src/heap-inl.h:63-65 | The root is a node of least key, and null just for the empty heap |
| Heap.Heap.Dequeue | src/heap-inl.h:235-237 | Takes out a node of least key and no other |
| HeapLinks.NodeSwap | src/heap-inl.h:68-100 | The record copies and link writes of a swap turn the store of a tree into that of the tree with parent and child exchanged |
| HeapShape.PathTo | src/heap-inl.h:112-121 | The path computed from a position leads from the root to that position |
| HeapShape.HeightBound | src/heap-inl.h:29-31 | A complete tree of n nodes is at most lg n + 1 high |
| Queue.Memory.Add | src/queue.h:52-58 | Appends one circular list to another in place: the contents are concatenated, and only the named links are written |
| Queue.Memory.Split | src/queue.h:61-69 | Cuts a list in front of an element: the two heads have the two parts |
| Queue.Memory.Move | src/queue.h:72-80 | The new head takes over all elements in order, the old head is empty |
| Queue.Memory.InsertHead | src/queue.h:83-89 | Puts an element in front, and writes links of its neighbours only |
| Queue.Memory.InsertTail | src/queue.h:92-98 | Puts an element at the end, and writes links of its neighbours only |
| Queue.Memory.Remove | src/queue.h:101-106 | Takes an element out of whatever list holds it, the others keep their order |
| Splay.SplayTree.Splay | include/tree.h:205-238 | Terminates, keeps the in-order sequence and the node set, writes no cell of another node, and ends with the matching node or an in-order neighbour of the key at the root; the tree that results and the number of turns are those of SplayCost.Splay |
| Splay.SplayTree.SplayMinMax | include/tree.h:242-274 | Keeps the in-order sequence and brings the first, or last, node to the root |
| Splay.SplayTree.Find | include/tree.h:123-134 | Finds the node with the key if there is one, and keeps the order |
| Splay.SplayTree.Insert | include/tree.h:160-182 | Adds exactly elm in key order, or returns the node that has the key already |
| Splay.SplayTree.Remove | include/tree.h:184-203 | Takes out exactly the node with elm's key; the right link it overwrites unchecked is null, so no node is lost |
| SplayCost.ExcessBound | include/tree.h:44-47 | The turns of a splay, plus twice what it changes the potential of the trees it leaves, are at most three times the logarithm of the size, plus one |
| SplayCost.Balance | include/tree.h:44-47 | Over any sequence of finds, inserts and removes, turns plus twice the final potential are at most twice the initial one plus (10 lg n + 2) per operation |
| SplayCost.BalanceFromEmpty | include/tree.h:44-47 | The Balance Theorem the source cites: m operations on a tree that was empty take at most m (10 lg n + 2) turns, n the number of inserts |
| Async.NoWakeUpLost | src/unix/async.cpp:60-69 | In every interleaving, a raised pending flag has a wake-up outstanding, and a send that returned is answered by a callback begun after it was called, or has such a wake-up |
| Async.StepKeeps | src/unix/async.cpp:78-174 | Every step keeps: the two handle queues hold every open handle once, no flag is lost, each callback answers exactly one raising of the flag |
| AsyncProgress.AllAnswered | src/unix/async.cpp:60-142 | Under every scheduling: once no new call, handle or close comes, finitely many steps bring loop and senders to rest, and then every call made on a handle still open has returned and a callback begun after it was called has answered it |
| ThreadPoolSafety.DoneOnce | src/threadpool.cpp:178-226 | In every interleaving the done function of a request is called at most once and its work run at most once; it gets UV_ECANCELED if and only if a cancel returned 0, and then the work never ran; otherwise it ran once. That it is called is ThreadPoolProgress.AllDelivered |
| ThreadPoolSafety.NeverRunsCancelled | src/threadpool.cpp:49-90 | A worker about to run a request's work holds one that no cancel has returned 0 for, and that has not run before |
| ThreadPoolSafety.NothingStranded | src/threadpool.cpp:82-87 | Whenever loop->wq is not empty, a wake-up of that loop is outstanding, or the sender has not yet raised its flag, or uv__work_done has begun and not yet moved the list |
| ThreadPoolSafety.NoPoolWakeUpLost | src/threadpool.cpp:55-77 | idle_threads is the number of workers inside the wait, and while one of them is blocked every queued item has an awakened worker of its own, spurious wake-ups included |
| ThreadPoolSafety.AllDoneAtRest | src/threadpool.cpp:205-226 | When no step is left but new requests from outside, every request submitted has been done, unless the pool was told to exit |
| ThreadPoolSafety.AllExitAtRest | src/threadpool.cpp:101-112 | When no step is left and the exit message was posted, every worker has exited |
| ThreadPoolProgress.StepLess | src/threadpool.cpp:49-226 | A measure of the state that every step needing nobody outside strictly lowers |
| ThreadPoolProgress.AllDelivered | src/threadpool.cpp:167-226 | Delivery under every scheduling: from any reachable state, once nobody outside interferes, finitely many steps bring the system to rest, and then every request has been done once, unless the pool was told to exit |
| ThreadPoolProgress.AllExit | src/threadpool.cpp:101-112 | Termination under every scheduling: once the exit message is posted and nobody outside interferes, finitely many steps bring the system to rest with every worker gone, so cleanup can join them |
| ThreadPoolCancel.SubmittedIsDone | src/threadpool.cpp:167-226 | The same in terms of the calls made: every request some submit named is done once in the end, unless some call posted the exit message, and if one did every worker is gone |
| ThreadPoolCancel.CancelTakes | src/threadpool.cpp:178-206 | In every reachable state a cancel takes a request if and only if it waits in the pool's queue, or is on its loop's way to done without its work having run; it is then out of every list and all else is unchanged; otherwise nothing changes |
| ThreadPoolCancel.TakenNeverRuns | src/threadpool.cpp:178-206 | Whatever anybody does after a cancel took a request, its work never runs and done is told nothing but UV_ECANCELED |
| ThreadPoolCancel.AllCancelled | src/threadpool.cpp:178-226 | Under every scheduling, a cancel that took a request returns 0 and the request is done once, with UV_ECANCELED, its work never having run, even if the pool was told to exit |
| SignalSafety.InFlightCounted | src/unix/signal.cpp:135-173 | In every interleaving caught_signals minus dispatched_signals, corrected by the write the handler is about to count, is the number of the handle's messages in the pipe and the buffer |
| SignalSafety.ClosePendingOnce | src/unix/signal.cpp:274-285 | A handle is made close-pending at most once, and has been if and only if it is closing, its close is past its stop, and none of its messages is in flight |
| SignalSafety.MessagesLive | src/unix/signal.cpp:342-412 | Every message in a pipe or buffer names an open handle of that loop that is not yet close-pending, and none is dispatched to a closing one |
| SignalSafety.HandlerTouchesLive | src/unix/signal.cpp:135-173 | The handles an interrupted signal handler has still to write for are in the tree, watch its signal and are not close-pending |
| SignalSafety.InstalledIffWatched | src/unix/signal.cpp:288-339 | The operating system's handler is installed for a signal if and only if the tree holds a handle for it, whenever the lock is free |
| SignalDelivery.TakenInOrder | src/unix/signal.cpp:135-171 | In every interleaving what handlers wrote to a loop is what that loop has taken up for dispatch followed by what it has yet to take up: no message is lost, repeated or overtaken |
| SignalDelivery.CallsAreDue | src/unix/signal.cpp:382-388 | The calls of signal_cb are just those for messages whose signal their handle watches when they are taken up, each made once and then; such a handle is not closing |
| SignalDelivery.AllVisited | src/unix/signal.cpp:147-170 | The writes handlers attempted, and those still to attempt, are in order those the caught signals asked for: no watcher is skipped or visited twice |
| SignalDelivery.CaughtIsCalled | src/unix/signal.cpp:135-399 | For a watcher only ever started for one signal, and neither stopped nor closed: its callbacks are all for that signal, and callbacks plus messages still to call back equal caught_signals, corrected by the uncounted write |
| SignalDelivery.CallsComplete | src/unix/signal.cpp:274-466 | When uv_signal_start returns the watcher is in the tree for its signal and the handler is installed, unless the system refused; when uv_signal_stop or uv_close returns it is out of the tree with no signal |
| SignalProgress.StepLess | src/unix/signal.cpp:135-412 | A measure of the state that every step needing nobody outside strictly lowers |
| SignalProgress.AllSettled | src/unix/signal.cpp:274-412 | Under every scheduling, once no new signal or call comes the system comes to rest, every caught signal has been dispatched, and the close of every closing watcher is pending |
| SignalProgress.AllCalledBack | src/unix/signal.cpp:135-412 | Likewise a watcher only ever started for one signal, and neither stopped nor closed, has been called back exactly as often as handlers caught the signal for it |
| SignalTree.CompareIsKeyOrder | src/unix/signal.cpp:415-432 | The three-way comparison orders watchers by signal, then loop, then address, and is zero only for equal triples |
| SignalTree.Watchers.FirstHandle | src/unix/signal.cpp:118-132 | Finds the first watcher of a signal in tree order, whatever address the lookup key has, or null if there is none |
| SignalTree.Watchers.Handler | src/unix/signal.cpp:135-173 | Visits every watcher of the signal exactly once, in tree order, and writes one message and adds one count for just those visited whose write succeeds |
| SignalTree.VisitsWatching | src/unix/signal.cpp:135-173 | In any state of the protocol whose tree and signal numbers are those of this tree, what the handler visits is just the set of watchers a delivery of the signal is defined by, so that delivery is a step of the protocol |
| SignalTree.Watchers.Link | src/unix/signal.cpp:288-339 | Adds exactly the handle to the tree, installing the handler for the first one of a signal; if that fails nothing changes |
| SignalTree.Watchers.Unlink | src/unix/signal.cpp:442-466 | Takes exactly the handle out of the tree, removing the handler with the last one of a signal |
| InetText.Parse4Exact | src/inet.cpp:184-220 | The IPv4 reader accepts a string with value q if and only if it is the text the printer prints for q |
| InetText.Value6Exact | src/inet.cpp:223-307 | The IPv6 reader accepts a string with value v if and only if it is an address text denoting v (section 2.2 of RFC 4291): groups of one to four hexadecimal digits, at most one "::", an IPv4 tail |
| Inet.InetNtop4 | src/inet.cpp:51-63 | Prints the dotted decimal text, or reports ENOSPC just when it does not fit with its NUL |
| Inet.FindRun | src/inet.cpp:87-110 | The loop finds the first longest run of two or more zero words, if there is one (section 4.2 of RFC 5952) |
| Inet.BestUnique | src/inet.cpp:87-110 | There is only one such run |
| Inet.PrintedIsRead | src/inet.cpp:66-152 | For every 16 bytes, reading the canonical text gives the bytes back |
| Inet.InetNtop6 | src/inet.cpp:66-152 | Prints, for every 16 bytes, that text: "::" at the first longest zero run, at most 40 bytes with its NUL, read back to the same bytes; ENOSPC just when it does not fit |
| Inet.InetPton4 | src/inet.cpp:184-220 | The loop returns q if and only if the string is the text of q |
| Inet.InetPton6 | src/inet.cpp:223-307 | The loop returns v if and only if the string is a text of v |
| Inet.ShiftRight | src/inet.cpp:287-302 | The in-place shift moves what followed "::" to the end and leaves zeros in the gap |
| Inet.InetPton | src/inet.cpp:155-181 | Reads either family; for IPv6 what follows a per cent sign is cut off first, and a text too long for the buffer before it is refused |
| Inet.ZoneIgnored | src/inet.cpp:163-178 | The text cut at the zone is the address it denotes without the zone |
| Stream.Stream.Submit | src/unix/stream.cpp:989-1076 | A write request is appended to the queues in order; the passes of uv__write follow at once just if nothing was owed and the stream is connected; write_queue_size stays the bytes not yet sent of queued and failed requests; the call aborts if and only if the stated condition holds |
| Stream.BlockingAborts | src/unix/stream.cpp:1063-1067 | On any idle blocking stream a write that fails, and returns, followed by another one fails the assertion |
| Stream.Stream.TryWrite | src/unix/stream.cpp:1094-1139 | Leaves the queues and write_queue_size as they were: what the kernel took in the passes made is a prefix of the data, returned as a count; refuses with UV_EAGAIN while anything is queued |
| Stream.Stream.Write | src/unix/stream.cpp:422-577 | Whatever the kernel answers: each pass takes just the bytes it accepted of those offered, from the first request; that request leaves the queue exactly when all of it is taken, with no error, or the kernel answers an error, and then with that error; what is left waits for POLLOUT or a due callback |
| StreamModel.AcceptedIs | src/unix/stream.cpp:518-563 | The bytes a pass takes are as many as the kernel answers, up to what the first request offers it, and are the next ones of that request |
| StreamModel.OfferedRest | src/unix/stream.cpp:446-453 | What one call of writev is offered is the first part of what is left of the request, all of it unless it has more buffers than allowed, and then as many as allowed |
| Stream.Stream.WriteCallbacks | src/unix/stream.cpp:580-604 | While callbacks write, try to write and close the stream: when it returns, every request that was completed has been called back, in the order of submission and after all called before, each with the error recorded for it, and none is left completed; no callback made, byte taken or data recorded is lost, and the row of all requests has grown at its end by just what the callbacks made submit |
| Stream.Stream.Callback | src/unix/stream.cpp:601-603 | Whatever calls user code makes from a callback: what it writes before it closes the stream joins the row in order, the same is kept, none of them calls back, and on a closed stream they change nothing |
| Stream.Stream.Io | src/unix/stream.cpp:924-931 | A writable socket: one call of uv__write, then callbacks with the recorded errors for all that is completed; what stays queued waits for POLLOUT, a due callback or the destruction of a closed stream |
| Stream.Stream.Connected | src/unix/stream.cpp:940-986 | The connect callback is made with the outcome; if the connection failed and the callback did not close the stream, every request still queued after it is called back with UV_ECANCELED, those completed before with their own errors; otherwise what is queued waits |
| Stream.Stream.Flush | src/unix/stream.cpp:112-124 | Every queued request is completed with the error, in order, its bytes stay counted, and nothing else changes |
| Stream.Stream.Destroy | src/unix/stream.cpp:127-152 | Whatever its callbacks call, every request ever submitted has been called back, in order, the completed ones with their errors and the queued ones with UV_ECANCELED, no byte more is written, and write_queue_size is zero, as asserted at line 151 |
| StreamModel.TookSome | src/unix/stream.cpp:519-563 | Taking n bytes keeps conservation and order: what was taken of each request, followed by what is left, is its data, and no byte of a later request precedes the end or failure of an earlier one |
| Timers.LessIsKeyOrder | src/unix/timer.cpp:29-51 | The comparison is the order by timeout and then start id |
| Timers.ClampedIs | src/unix/timer.cpp:74-76 | The timeout is the sum, saturated; it is never before now, and after now for a positive timeout if and only if the clock is not saturated |
| Timers.Timers.Start | src/unix/timer.cpp:62-90 | Arms the timer, and no other, for the saturated sum of clock and timeout, with the next start id and the repeat given; without a callback nothing changes and the result is EINVAL; the heap holds just the active timers |
| Timers.Timers.Stop | src/unix/timer.cpp:93-103 | Takes just this timer out of the heap and keeps its callback and repeat |
| Timers.Timers.Again | src/unix/timer.cpp:106-116 | Re-arms a repeating timer after its repeat, with a new start id; without a callback or a repeat nothing changes, and without a callback the result is EINVAL |
| Timers.ApplyIs | src/unix/timer.cpp:62-126 | What each call a callback can make does to the timer it names, in terms of its fields, and that it does nothing to the others |
| Timers.TurnRepeats | src/unix/timer.cpp:163-165 | When its turn is over a repeating timer is armed again from the time of the turn and any other is inactive, unless the callback made calls for it; the turn is recorded |
| Timers.Timers.NextTimeout | src/unix/timer.cpp:129-147 | -1 just if no timer is active, 0 just if one is due, otherwise the time to the nearest one, at most INT_MAX |
| Timers.Timers.Run | src/unix/timer.cpp:150-167 | Whatever the callbacks do, each callback made is for the timer that is due and sorts first, the pass ends, and then none is due |
| Timers.PassOk | src/unix/timer.cpp:150-167 | Over whole passes, and so over the life of the loop, callbacks come in strictly increasing order of timeout and start id, nothing still armed sorts before one that has fired, and each turn leaves less to do |
| Timers.TameTurn | src/unix/timer.cpp:150-167 | A callback that arms nothing already due makes no other timer due, and its own, repeat included, is due no more |
| Timers.TamePass | src/unix/timer.cpp:150-167 | So a pass whose callbacks arm nothing already due calls back at most the timers due at its start, however many calls they make |
| Watchers.CalledOnce | src/unix/loop-watcher_prepare.cpp:27-39 | One pass calls each watcher active at its start once, unless an earlier callback stopped it, and calls no other, not even one started meanwhile |
| Watchers.Loop.Run | src/unix/loop-watcher_prepare.cpp:27-39 | The pass over two linked lists, with callbacks starting and stopping any watchers, makes just those calls in order, ends, and leaves in the loop's list just the watchers that the last call for them started, or that were active and that no callback made a call for |
| Watchers.PassedOrder | src/unix/loop-watcher_prepare.cpp:27-39 | Watchers that no call names keep their order over a pass |
| Handles.CountedBounds | src/uv-common.h:122-123 | The count is positive if and only if some handle is both active and referenced |
| Handles.Loop.HandleStart | src/uv-common.h:143-150 | Makes a handle active and keeps active_handles the number of handles both active and referenced |
| Handles.Loop.HandleUnref | src/uv-common.h:170-177 | Drops the reference, likewise, also for a closing handle |
| Handles.Loop.Close | src/unix/core.cpp:62-132 | A handle that is not closing is stopped and put in front of the closing list, a signal handle only if its signals have been dispatched |
| Handles.Loop.Do | src/unix/core.cpp:62-132 | What each call of the interface does to the handle it names and to the closing list, and that it does nothing to the others |
| Handles.Loop.RunClosing | src/unix/core.cpp:189-249 | A pass calls back just the handles that waited when it began, in list order, each once ever, while write callbacks of streams and close callbacks use the handles; every non-signal handle closed before is closed after it; the handles that wait for the next pass are just those its callbacks closed |
| FsPoll.RunPlaces | src/fs-poll.cpp:57-225 | Over any run every context is in exactly one of: stat in flight, in poll_cb, timer armed, timer closing, or has been freed once; at rest the freed ones are those whose handle was stopped |
| FsPoll.FreedForGood | src/fs-poll.cpp:223-225 | No step, whatever its callback does, touches a freed context, so none is freed twice |
| FsPoll.DelayIs | src/fs-poll.cpp:214-216 | The next poll is at the first of the times start_time + k * interval that lies strictly after now |
| FsPoll.Polls.PollCb | src/fs-poll.cpp:173-220 | The in-place callback is the model's step, stopping and restarting handles inside the user's callback included; every context stays accounted for, and for a stopped handle the user is never called |
| FsPoll.ToldNews | src/fs-poll.cpp:186-203 | Over any run, whatever callbacks do, what the user is told about a context is exactly the news among its outcomes, in order: each outcome unlike the one before it, and a first one only if it is an error, with the status last found before it |
| FsPoll.StartedIs | src/fs-poll.cpp:57-95 | A context just started polls at once, with the interval given or one for zero |
| FsPoll.EndedIs | src/fs-poll.cpp:214-219 | A context that keeps its handle is armed for the first time of its grid after now, and the grid starts anew when the timer fires |
| FsPoll.AppliedActive | src/fs-poll.cpp:57-126 | A handle is active after a callback's calls if and only if the last one for it started it, or there was none and it was active |
| FsPoll.Polls.Stop | src/fs-poll.cpp:105-126 | The two assertions hold, and the timer is closed just if it is armed |
| Words.NextPowerOfTwo | src/unix/core.cpp:733-743 | The shifts compute the least power of two not below the argument if that is between 1 and two to the 31, and zero otherwise |
| IoTable.TableFits | src/unix/core.cpp:798-805 | Of the descriptors the assertion admits, all but the largest get a table |
| IoTable.IoLoop.MaybeResize | src/unix/core.cpp:745-778 | Keeps every entry and both trailing slots, clears the new ones, and makes nwatchers + 2 the least power of two that fits; fails, changing nothing, if and only if that power is beyond two to the 31 |
| IoTable.IoLoop.Start | src/unix/core.cpp:798-826 | For every descriptor the assertions admit but the largest: the slot of the descriptor is the watcher, nfds counts the slots in use, and every watcher whose wanted mask differs from its current one is queued |
| IoTable.IoLoop.Stop | src/unix/core.cpp:829-858 | Takes just the events named from the wanted mask; the slot is freed and uncounted exactly when nothing is wanted any more |
| IoTable.IoLoop.Poll | src/unix/core.cpp:798-858 | After the poller has gone through the queue every watcher's current mask is the wanted one |
| Socks.AnyChunking | samples/socks5-proxy/s5.c:53-239 | Feeding the input in any chunks gives the same event, fields and number of bytes used as feeding it at once |
| Socks.Chunked | samples/socks5-proxy/s5.c:53-239 | Parsing a + b is parsing a and then b, unless a already ends in an event |
| Socks.Greeting | samples/socks5-proxy/s5.c:68-102 | Method selection for every input: error, more data wanted, or the methods offered and the bytes consumed (section 3 of RFC 1928) |
| Socks.Login | samples/socks5-proxy/s5.c:104-146 | Name and password for every input (section 2 of RFC 1929) |
| Socks.Request | samples/socks5-proxy/s5.c:148-224 | Requests for every input: the three errors, the address of each type and the port (sections 4 and 5 of RFC 1928) |
| Socks.HelloRead | samples/socks5-proxy/s5.c:68-102 | A greeting, whatever follows, is read to its last byte and no further if and only if its list is not empty |
| Socks.CredentialsRead | samples/socks5-proxy/s5.c:104-146 | A login, whatever follows, is read to its last byte with the lengths sent if and only if neither field is empty; then name and password come back as sent, terminated |
| Socks.RequestRead | samples/socks5-proxy/s5.c:148-224 | A request, whatever follows, is carried out and read to its last byte if and only if it does not ask to bind and its host name is not empty; then it comes back as sent; bind is refused |
| Socks.Parser.Parse | samples/socks5-proxy/s5.c:53-239 | The loop over buffers of fixed size stays in bounds and computes the function the lemmas above are about |
| Socks.Parser.SelectAuth | samples/socks5-proxy/s5.c:245-261 | Chooses what the parser expects next, and refuses GSSAPI |

## Left out

- System calls, sockets, terminals, processes, dynamic loading, name resolution, file events: their
  results are inputs of the model.
- Memory ordering and the insides of mutexes and condition variables: a compare-and-swap is one
  step that returns the old value, a critical section is one step, and a condition may wake a
  worker for no reason.
- uv__io_poll is not part of this model: polling is the step that reads the wake descriptor, and
  the method `Poll` that takes over the masks of queued watchers.
- Allocation failure, which src/unix/stream.cpp:1040 and src/fs-poll.cpp:99 handle after
  registering the request and linking the timer.
- Partial signal messages: the pipe carries whole ones (src/unix/signal.cpp:354-411).
- uv__signal_loop_cleanup.
- API misuse: cancelling after done has begun, starting a closing handle, inserting a node twice,
  closing twice, 64-bit counters near their end. These are preconditions.
- IoTable.IoLoop.Start: two watchers on one descriptor are excluded by the precondition
  `IoTable.Sole`, as the assertion at src/unix/core.cpp:849 presumes; after the size of a table
  wraps to zero the source aborts or writes outside it, and the model stops with a failure.
- IoTable.IoLoop.MaybeResize: likewise stops where the size wraps to zero.
- ThreadPoolSafety.DoneOnce: bounds the calls of done from above; that a call is made is stated by
  ThreadPoolProgress.AllDelivered, which supposes that from some moment on nobody outside submits,
  cancels or sends and that no worker wakes for no reason, since with an endless stream of these a
  given worker may never be scheduled.
- SplayCost.Balance: counts turns of the splay loop, not the comparisons in them, and takes
  logarithms rounded down.
- SPLAY_NEXT, SPLAY_FOREACH and the macros that wrap the functions.
- Reading, listening, accepting and shutting down streams, and passing descriptors: only the write
  side is modelled. How the error of a failed connection is found out is an input.
- Handles and streams are separate models: `Handles.Loop.FinishClose` makes the calls of a
  stream's write callbacks, `Stream.Stream.Destroy` says which callbacks these are.
- Socks.Parser.Parse: `dport |= c` is an addition, which is the same because the low byte is zero
  there; that is part of the parser's invariant.
- Queue.Memory and the queues of other modules: the intrusive list is refined to sequences once;
  `IoTable`, `Stream` and the protocols hold sequences.
- FsPoll: a status is a number, equal for equal statuses, in place of the fields statbuf_eq compares.
- FsPoll: the closing pass and the timer heap are those of `Handles` and `Timers`; here a timer is
  armed, due or closing.
- The watchers of src/unix/loop-watcher_idle.cpp and src/unix/loop-watcher_check.cpp, which are
  copies of the prepare watchers.
