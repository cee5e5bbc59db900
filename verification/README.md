# Mitogen, modelled and verified

Mitogen connects processes into a tree and passes messages between them. This project models the
logic that makes that work, without the operating system under it, and proves what it is for.

- **Routing** (`Tree`, `Router`, `LoopFreedom`, `ExactDelivery`, `Fate`, `Authority`): one context's routing
  of one message; no loops, whatever the tables say; with exact tables, exact delivery, and who hears of
  a message that does not arrive; no context can speak for another that is not below it.
- **Route convergence** (`RouteMonitor`, `RouteMonitorCode`, `RoutingNet`, `Convergence*`, `RouteNews`,
  `Upward`, `Ancestry`, `Delivery`): all contexts with their tables and FIFO links as one state machine.
  Between any two callbacks, what a parent knows about a child differs from the truth by exactly the
  messages still on their way; whoever wrote to a context hears when it is gone, and nobody else.
- **Streams** (`Wire`, `Transport`, `EndToEnd`, `Delimited`, `Bootstrap`): framing, partial writes, reads
  cut anywhere, the hand-over from the start-up protocol; together a reliable FIFO of messages, which
  is what convergence assumes of a link.
- **Latch**, **Waker**: threads interleaved step by step.
- **FileService** (`FileService`, `FileTransfer`): window flow control, with everything in flight.
- **Modules** (`Modules`, `ModuleNet`, `ModuleSteps`, `ModuleRuns`, `ModuleRepeats`, `ModuleOutcomes`,
  `Preload*`, `ImporterCode`, `Related`): requests for modules up the tree, modules and preloading down
  it, each link FIFO; how often a stream carries a module, how imports end, and exactly when a preloaded
  module arrives.
- **Handles**, **Timers**, **Selects** (with `SpareTokens`), **Minify**: the handler table, the timer heap,
  nested selects, and the token passes.

Two forms recur. Where the source changes an object step by step there is a class whose methods are
proved to compute a function of the old state; what the source promises is then proved about those
functions, over every run of steps. A lemma named `...Keeps` says that a step keeps an invariant; the
lemmas about runs come last in their module.

## What turned out not to hold

- A latch's pairing breaks if a sleeper's timeout fires after a put has chosen it and before the put
  has written its cookie (`Latch.TimeOutIff`, `Latch.RunPaired`); then a later sleeper can be missed for
  ever (`Latch.LostWakeUp`). No item is lost or duplicated even so (`Latch.TakenOnce`).
- Complaints about over-long messages are themselves too long, and so endless, if `max_message_size` is
  below 32 (`LoopFreedom.DeadLineagesFiniteIff`).
- The router's two handler indexes disagree after a registration that overwrites a handler with a
  respondent, and after a broker's exit with a reply outstanding (`Handles.OverwriteDisagrees`,
  `Handles.ExitDisagrees`), and at no other time (`Handles.RunAgrees`).
- The master may send LOAD_MODULE for a name twice on a stream (`ModuleRepeats.SentTwice`). It does if and
  only if two requests for the name raised, or one did and the name was sent after all
  (`ModuleRepeats.CarriedTwiceIff`). Whether a request will raise can be told before it is made
  (`ModuleRepeats.RelatedRaisesIff`).
- `allocate_block` documents its second value as the last usable id (mitogen/master.py:1570-1572); the
  code treats it as the first id after the block (mitogen/parent.py:1752), and so does the model. It has
  to: the master hands that id out itself (`ConvergenceConnect.BlockEndIsTaken`).
- `Select.empty` documents `size() == 0` (mitogen/select.py:284-291) but asks the select's own latch, which
  may hold spare tokens (`SpareTokens.EmptyIsWrong`). It never misses an item (`SpareTokens.EmptyIsEmpty`), and
  tokens are exact throughout a run if and only if no item is taken behind a select's back
  (`SpareTokens.RunExactIff`); then it is right (`SpareTokens.EmptyIffEmpty`).
- A FORWARD_MODULE for a module already sent to the next context on the way is not passed on
  (mitogen/parent.py:2746-2747), so preloading may stop short (`PreloadStops.StopsShort`). It arrives if and
  only if the target had the module, or no link between the first and the last counted it as sent
  (`PreloadArrives.ForwardedIff`, and `PreloadArrives.TurnIff` for each name of a path); or it comes along
  with a later name that it is related to (`PreloadStops.ComesAlong`, `PreloadArrives.PathHas`). The first
  link does not matter, because the master sends the FORWARD_MODULE in any case (mitogen/master.py:1297-1299),
  nor does the last, because a module sent on it gets there. No import is stranded by it
  (`ModuleRuns.NoStrandedImport`).
- A comment of the first two rows that follows an INDENT or a string at the start of a line comes out before
  it, because strings and layout are held back and comments are not (`Minify.CommentLeavesBlock`,
  `Minify.StripKeepsCommentsIff`). Code never leaves its block.
- `reindent` moves what follows a string that ends on a later row, but not the string's end, so in an
  indented block the two can come to overlap (`Minify.RunsInto`, `Minify.GapAfterRows`); and tokens of a
  continuation line that is indented less than its block are squeezed against the margin (`Minify.GapIff`).

## Model

| member | source | states |
|---|---|---|
| `Router.SourceVerified` | mitogen/core.py:3586-3598 | A message within the size limit is rejected if and only if the stream it came in on is not the one that leads back to both its authority and its source |
| `Router.ContentKept` | mitogen/core.py:3559-3640 | Routing never changes what a message says; on a stream that is marked with an authority the message takes that authority, and on any other it keeps its own |
| `LoopFreedom.OneHop` | mitogen/core.py:3581-3640 | Whatever the tables below say, a message that came from the parent goes on to a child or nowhere, and any other goes to a child or to the parent |
| `LoopFreedom.TurnsOnce` | mitogen/core.py:3617-3640 | Once a message has come down one hop it never climbs again, although every hop may see different tables |
| `LoopFreedom.HopsSoFar` | mitogen/core.py:3617-3640 | After k hops a message is k levels up, or its climb and its descent add up to at least k |
| `LoopFreedom.HopBound` | mitogen/core.py:3617-3640 | Loop freedom: with arbitrary, changing tables on a fixed tree a message is forwarded at most 2 * height times |
| `LoopFreedom.DeadAnswered` | mitogen/core.py:3500-3532 | A dead message is itself answered if and only if it is over the size limit |
| `LoopFreedom.AnswersAreDead` | mitogen/core.py:3500-3532 | Every answer composed while routing is a dead message: for the handle the sender waits on, if it does, and else, for an over-long message only, for the handle it was meant for; an answer to a dead message is the over-size complaint |
| `LoopFreedom.DeadLineageBound` | mitogen/core.py:3575-3579 | With a limit of at least 32 bytes, one send causes at most two further messages |
| `LoopFreedom.DeadLineageUnbounded` | mitogen/core.py:3575-3579 | With a lower limit, every over-long message starts an endless chain of complaints |
| `LoopFreedom.DeadLineagesFiniteIff` | mitogen/core.py:3500-3532 | Chains of answers are bounded for every message if and only if max_message_size is at least 32 |
| `ExactDelivery.DeliveredExactly` | mitogen/core.py:3559-3640 | With exact tables, a message from any context to any other that no one-way router keeps apart is forwarded along the tree path between them, never rejected, and invoked at its destination only |
| `ExactDelivery.PathIsSimple` | docs/howitworks.rst:534-559 | That path starts at the sender, ends at the destination, moves along tree edges and visits no context twice |
| `ExactDelivery.StoppedAcross` | mitogen/core.py:3617-3640 | A one-way router stops a message that comes from one of its children and would go on to another; it gets exactly that far |
| `ExactDelivery.StoppedAbove` | mitogen/core.py:3617-3627 | A message for an id that no live context has climbs to the master and is given up there |
| `Fate.Fate` | mitogen/core.py:3500-3532 | What becomes of any message of a live context: it is invoked at its destination, or given up at a known place, for one of three reasons that can be told beforehand; then, if the sender waits for a reply, a dead message travels back to it and is invoked at the handle it waits on; if it does not wait, the recipient is told of an over-long message and nobody of any other |
| `Fate.FateIsOne` | mitogen/core.py:3559-3640 | No other outcome is possible: a message arrives if and only if it is not too large, its destination is live and no one-way router lies between |
| `Fate.RefusedReturns` | mitogen/core.py:3523-3548 | A message that arrives and may not be handled is answered in the same way, if the sender waits for a reply, and otherwise not at all |
| `Authority.NoImpersonation` | docs/howitworks.rst:610-634 | With exact tables, a message from a child, whatever ids it bears, is rejected if and only if its source or its authority is not a reachable context at or below that child |
| `Authority.OneWayFromChild` | mitogen/core.py:3617-3640 | In a unidirectional router a message from a child leaves it if and only if its destination is not below this context; otherwise it ends there, with a dead message to the handle its sender waits on, if it does |
| `Authority.AcrossIff` | mitogen/core.py:3601-3640 | Between two children of a one-way router a message passes if and only if one of their streams is marked with the authority of this context or of one above; it goes on with the mark of the stream it came in on |
| `RouteMonitor.AgreeNotice` | mitogen/parent.py:2187-2200 | A new child keeps _routes_by_stream and _stream_by_id in agreement |
| `RouteMonitor.AddAccepted` | mitogen/parent.py:2233-2257 | ADD_ROUTE for an unrouted id enters it in both indexes, in nothing else, and is passed to the parent |
| `RouteMonitor.AddRefused` | mitogen/parent.py:2233-2257 | ADD_ROUTE for an id that is routed already changes no route and is passed to nobody |
| `RouteMonitor.DelAccepted` | mitogen/parent.py:2259-2293 | DEL_ROUTE from the stream the route leads to removes it from both indexes and tells the parent and every child stream that ever wrote to the id |
| `RouteMonitor.DelIgnored` | mitogen/parent.py:2259-2293 | DEL_ROUTE from any other stream changes nothing and is passed to nobody |
| `RouteMonitor.DropTargetsEffect` | mitogen/parent.py:2211-2231 | The loop over a dead stream removes every route in its set, announces each of them to the parent once, and tells no child stream about an id it never wrote to |
| `RouteMonitor.DropTargetsTell` | mitogen/parent.py:2211-2231 | The loop tells every child stream that is left about every id it ever wrote to |
| `RouteMonitor.ForgottenTwice` | mitogen/core.py:3295-3309 | The two handlers of one disconnection each forget some of the ids; together they forget exactly those of the dead stream |
| `RouteMonitor.DisconnectEffect` | mitogen/parent.py:2211-2231 | After both handlers no id leads to the dead stream, nothing else has changed, and a DEL_ROUTE for every id that was behind it has gone to the parent and to every child stream left that ever wrote to the id |
| `RouteMonitor.LoseParentEffect` | mitogen/parent.py:2211-2231 | A context that loses its parent forgets that one stream and sends nothing |
| `RouteMonitorCode.Monitor.PropagateUp` | mitogen/parent.py:2151-2166 | Sends the route message to the parent if there is one |
| `RouteMonitorCode.Monitor.PropagateDown` | mitogen/parent.py:2168-2185 | Sends DEL_ROUTE to exactly the child streams that have written to the id |
| `RouteMonitorCode.Monitor.NoticeStream` | mitogen/parent.py:2187-2200 | The method computes the step used in the convergence proof |
| `RouteMonitorCode.Monitor.OnAddRoute` | mitogen/parent.py:2233-2257 | The method computes the step used in the convergence proof |
| `RouteMonitorCode.Monitor.OnDelRoute` | mitogen/parent.py:2259-2293 | The method computes the step used in the convergence proof |
| `RouteMonitorCode.Monitor.ForgetContexts` | mitogen/core.py:3295-3309 | The method removes the routes of known contexts that lead to the dead stream |
| `RouteMonitorCode.Monitor.DropRoutes` | mitogen/parent.py:2211-2231 | For any order in which the set is visited, the loop computes the step used in the convergence proof |
| `RouteMonitorCode.Monitor.OnStreamDisconnect` | mitogen/parent.py:2211-2231 | Both handlers together compute the step used in the convergence proof |
| `ConvergenceConnect.AllocatorsAllocate` | mitogen/parent.py:1731-1757 | Allocating an id, in the master or from a block, keeps all ids handed out or still to be handed out apart, and greater than the id of whoever hands them out |
| `ConvergenceConnect.AllocatorsGrant` | mitogen/master.py:1564-1582 | A new block of 1000 ids meets no id and no block given out before |
| `ConvergenceConnect.BlockEndIsTaken` | mitogen/master.py:1564-1582 | The second value returned is not an id of the block: the master hands it out next |
| `ConvergenceConnect.ConnectKeeps` | mitogen/parent.py:1546-1559 | Completing a connection keeps the convergence invariant |
| `ConvergenceSteps.ReceiveAddKeeps` | mitogen/parent.py:2233-2257 | Handling an ADD_ROUTE from any child, at any time, keeps the convergence invariant |
| `ConvergenceSteps.ReceiveDelRouteKeeps` | mitogen/parent.py:2259-2293 | Handling a DEL_ROUTE from any child, at any time, keeps the convergence invariant |
| `ConvergenceLocal.ReceiveDelKeeps` | mitogen/parent.py:2259-2293 | A DEL_ROUTE from the parent never removes a live route, in whatever order and number it arrives |
| `ConvergenceLocal.DisconnectKeeps` | mitogen/parent.py:2211-2231 | Losing a child keeps the convergence invariant, for any order of the loop |
| `ConvergenceConnect.StepKeeps` | mitogen/parent.py:2070-2293 | Every step anywhere in the tree keeps: replaying the route messages still queued from a child onto its parent's set for it gives the child and everything the child answers for; ids are never reused |
| `ConvergenceConnect.ReachableInv` | mitogen/parent.py:2070-2293 | So in every run of connects, disconnects and deliveries |
| `RouteNews.RecordedIff` | mitogen/core.py:3611-3612 | In every run, what a parent has recorded of a child are exactly the ids for which it has read a message from the child that passed the checks |
| `RouteNews.TellsWriters` | mitogen/parent.py:2168-2185 | In every run, a child whose stream stays open is told in a step that an id is gone if and only if its parent loses its route to the id in that step, or hears from above that it is gone, and has at any time read a message from the child for it |
| `Upward.NothingLost` | mitogen/core.py:3640-3640 | In every run, what a parent has read from a child is the beginning of what the child has routed to it, and the rest is queued in order: no message is lost, repeated or overtaken on its way up |
| `Ancestry.ReachableRanked` | mitogen/parent.py:1546-1559 | In every reachable state a context's parent_ids are exactly the contexts above it, and all contexts have the same size limit |
| `Ancestry.OneWayForGood` | mitogen/parent.py:2437-2447 | In every run a context is a one-way router if and only if it was connected as one |
| `Delivery.UpwardNeverRejected` | docs/howitworks.rst:574-577 | In every reachable state, converged or not, a message read from a child passes source verification: the route to its sender was announced first on the same stream |
| `Delivery.RouteMessageInvoked` | mitogen/parent.py:2104-2118 | A child's own route messages are handed to the parent's handler and pass its policy |
| `Delivery.RoutesExact` | mitogen/parent.py:2070-2293 | With no route message on its way, a parent's set for a child is exactly the contexts reachable through it |
| `Delivery.QuietIsExact` | mitogen/parent.py:2070-2293 | With no route message on its way, the tables of all connected contexts are exact |
| `Delivery.ConvergedDelivery` | docs/howitworks.rst:534-559 | Convergence and delivery together: in any reachable state with no route message on its way, any connected context reaches any other that no one-way router keeps apart, along the tree path |
| `Delivery.ConvergedFate` | mitogen/core.py:3500-3640 | And in any such state the fate of any message is as stated by Fate.Fate |
| `Delivery.QuietIsTidy` | mitogen/parent.py:2070-2293 | In such a state a context routes no id below itself but those of reachable contexts |
| `Delivery.NobodyImpersonates` | docs/howitworks.rst:610-634 | So in any such state a forged source or authority, of a context that is elsewhere, gone or was never there, is rejected, and nothing else is |
| `Wire.U32RoundTrip` | mitogen/core.py:836-838 | A 32-bit field is read back as it was written |
| `Wire.I16RoundTrip` | mitogen/core.py:836-838 | The signed 16-bit encoding field is read back as it was written |
| `Wire.Layout` | mitogen/core.py:836-858 | Each field of a packed message is at its offset, as a big-endian number of its width, followed by the data |
| `Wire.FramePack` | mitogen/core.py:852-858 | A packed message, whatever follows it, is read back as a complete message with the same fields; a missing reply_to becomes 0 |
| `Wire.ParsePackAll` | mitogen/core.py:2428-2475 | A stream of packed messages is read back as those messages, with nothing left over |
| `Wire.ParseAppend` | mitogen/core.py:2428-2475 | Reading part of a stream and then the rest gives what reading all of it at once gives |
| `Wire.ParsePrefix` | mitogen/core.py:2428-2475 | Any beginning of an honest stream yields a prefix of its messages and is never taken for corrupt or over-long |
| `Wire.OnlySound` | mitogen/core.py:2439-2448 | Whatever bytes arrive, no message longer than the limit or of an unknown encoding gets through |
| `Wire.BadHeader` | mitogen/core.py:2439-2448 | A header that announces such a message ends the stream at that place, after all messages before it |
| `Transport.BufferedWriter.Write` | mitogen/core.py:2209-2229 | For any partial or failed write, what the system took and what is buffered is everything written so far, in order; a write is tried at once if and only if nothing is buffered, and the broker is told if anything is left |
| `Transport.BufferedWriter.OnTransmit` | mitogen/core.py:2231-2250 | Exactly the bytes that the system takes leave the buffer, from its front; the stream is closed if and only if it takes none; the broker stops polling when nothing is left |
| `Transport.EndsInNewest` | mitogen/core.py:2459-2473 | A message that has become complete needs every chunk of the deque: nothing whole is left behind it |
| `Transport.CollectOne` | mitogen/core.py:2459-2470 | One turn of the loop over the deque moves the right slice of the right chunk |
| `Transport.Receiver.TakeMessage` | mitogen/core.py:2459-2473 | The loop takes exactly the message's bytes off the deque, never finds it empty, and puts the unread rest of the last chunk back |
| `Transport.Receiver.ReceiveOne` | mitogen/core.py:2428-2475 | Hands on the first complete message, drops a corrupt or over-long stream, or waits; the deque keeps at most one chunk or a first chunk of at least 128 bytes, so the header never straddles chunks |
| `Transport.Receiver.Buffer` | mitogen/core.py:2406-2417 | Buffering a chunk keeps that shape and the byte count |
| `Transport.Receiver.Drain` | mitogen/core.py:2418-2419 | The loop hands on all complete messages and ends |
| `Transport.Receiver.OnReceive` | mitogen/core.py:2406-2426 | However the bytes are cut into reads, the messages handed on are those of everything read |
| `EndToEnd.Link.Read` | mitogen/core.py:2406-2426 | Reading any part of what is on the wire keeps the link intact |
| `EndToEnd.Link.Intact` | mitogen/core.py:2428-2475 | What the receiver has routed is always a prefix of what was sent; an honest stream is never dropped |
| `EndToEnd.Link.Flush` | mitogen/core.py:2231-2250 | As long as the system takes at least one byte each time, a bounded number of turns puts everything sent on the wire, and the stream stays open |
| `EndToEnd.Link.ReadAll` | mitogen/core.py:2406-2426 | Then, in whatever pieces the wire is read, everything sent has been routed, field for field, and nothing is left over |
| `EndToEnd.Link.Reliable` | mitogen/core.py:2209-2250 | Once buffer and wire are drained, everything sent has been routed, field for field |
| `Delimited.IterSplit` | mitogen/core.py:764-784 | The loop computes the greedy split of the buffer, and stops after the line that asks for it |
| `Delimited.SplitAppend` | mitogen/core.py:2155-2170 | Chunk independence: splitting what is left with the next chunk gives what splitting everything at once gives |
| `Delimited.SplitReassembles` | mitogen/core.py:764-784 | Lines, delimiters and the rest make up the input; no line and, if all were wanted, no rest holds a delimiter |
| `Bootstrap.HandsOverIff` | mitogen/parent.py:1182-1224 | A line hands the stream over if and only if it holds MITO002 and neither MITO000 nor MITO001 |
| `Bootstrap.Announcements` | mitogen/parent.py:1182-1224 | Of the three announcements only the last ends the line protocol |
| `Bootstrap.SplitJoin` | mitogen/core.py:764-784 | Lines without newlines come back from the split as they went in, with the payload after the last one untouched |
| `Bootstrap.BannerSplit` | mitogen/parent.py:1210-1213 | Whatever part of the output has been read, the line protocol has seen some of the lines, or all of them and handed over exactly the bytes that followed |
| `Bootstrap.BootstrapStream.OnReceive` | mitogen/parent.py:1182-1224 | The stream, whichever protocol is in charge, depends only on what was read in all |
| `Bootstrap.MessagesAfterBanner` | mitogen/parent.py:1546-1559 | The messages after the child's announcement are routed as if nothing had come before them, wherever reads cut the bytes |
| `Latch.PutKeeps` | mitogen/core.py:3027-3045 | A put keeps the pairing of the first sleepers with the first items |
| `Latch.TakeNowKeeps` | mitogen/core.py:2942-2948 | A get that need not sleep takes the oldest item that is paired with nobody |
| `Latch.ResumeGets` | mitogen/core.py:2981-3013 | A woken sleeper gets exactly the item whose put woke it; the assertions of the source hold |
| `Latch.ResumeKeeps` | mitogen/core.py:2981-3013 | A woken sleeper that leaves keeps the pairing of all others |
| `Latch.CloseKeeps` | mitogen/core.py:2843-2856 | Closing wakes every sleeper |
| `Latch.StepKeeps` | mitogen/core.py:2779-3049 | Every step but one keeps the invariant: _waking is at most the number of sleepers and of items, an item assigned to nobody means that nobody sleeps unwoken, and items are assigned in exactly the order they were put |
| `Latch.TimeOutIff` | mitogen/core.py:2983-2997 | A timeout keeps the pairing if and only if its sleeper has not been chosen by a put already |
| `Latch.RunPaired` | mitogen/core.py:2779-3049 | Over a whole run of an open latch the pairing holds throughout if and only if no chosen sleeper gives up before its cookie is written |
| `Latch.LostWakeUp` | mitogen/core.py:2983-2997 | A run with such a timeout, after which a thread sleeps for ever while any number of items are queued |
| `Latch.RunConserves` | mitogen/core.py:2779-3049 | In every run whatever, items put are queued or handed out |
| `Latch.TakenOnce` | mitogen/core.py:2779-3049 | No item is lost or returned twice |
| `Latch.NoLostWakeUp` | mitogen/core.py:3027-3045 | While items are queued and somebody sleeps, the one who has slept longest has been chosen and returns its own item once its cookie is written |
| `Latch.LongestSleeperFirst` | mitogen/core.py:3034-3037 | Sleepers are chosen in the order in which they went to sleep |
| `LatchCode.Queue.Put` | mitogen/core.py:3027-3045 | The method makes the put step and names the sleeper to wake |
| `LatchCode.Queue.Get` | mitogen/core.py:2938-2956 | The method takes the item the step says, times out, or goes to sleep |
| `LatchCode.Queue.GetSleep` | mitogen/core.py:2981-3013 | The method makes the resume or the timeout step and returns its outcome |
| `LatchCode.Queue.Close` | mitogen/core.py:2843-2856 | The loop wakes every sleeper not yet woken |
| `Waking.StepKeeps` | mitogen/core.py:3094-3124 | In every interleaving a queued call means a byte in the pipe, a thread about to write one, or the broker in its loop; calls run in the order queued |
| `Waking.NotLost` | mitogen/core.py:3132-3150 | While calls are queued, some thread or the broker can go on |
| `Waking.AllRun` | mitogen/core.py:3094-3112 | Without further calls, a bounded number of steps is possible, and when none is, every call has run exactly once, in order |
| `Waking.InThreadOrder` | mitogen/core.py:3132-3150 | Each thread's calls run in the order in which it made them, none twice |
| `WakerCode.Waker.OnReceive` | mitogen/core.py:3094-3112 | The loop runs all that is queued |
| `FileFlow.PumpMoves` | mitogen/service.py:980-1000 | Scheduling stops only with no job left or the window full, exceeds the window by less than one chunk, accounts for every byte, and changes no receiver's messages or their order |
| `FileFlow.PumpServesInOrder` | mitogen/service.py:980-1000 | Transfers are completed in the order they were requested |
| `FileFlow.CutContent` | mitogen/service.py:989-1000 | The chunks of a file are the file |
| `FileFlow.ChunksFull` | mitogen/service.py:978-1000 | All chunks of a file but the last are 131046 bytes long |
| `FileFlow.StopsFull` | mitogen/service.py:980-1000 | Scheduling leaves jobs waiting only when a mebibyte is unacknowledged |
| `FileFlow.ClosesFor` | mitogen/service.py:959-973 | Shutting down sends each receiver with a pending transfer one close, and nobody else any |
| `FileServiceCode.FileStreamState.SchedulePending` | mitogen/service.py:980-1000 | The loop computes the scheduling step |
| `FileServiceCode.FileStreamState.Fetch` | mitogen/service.py:1026-1085 | Refuses what is not registered, meant for another context or cannot be opened, leaving the state alone; otherwise replies with the metadata, then adds the job and schedules |
| `FileServiceCode.FileStreamState.Acknowledge` | mitogen/service.py:1092-1107 | Lowers the count by what was acknowledged and schedules |
| `FileServiceCode.FileStreamState.OnShutdown` | mitogen/service.py:959-973 | The loop closes every job |
| `FileTransfer.FetchKeeps` | mitogen/service.py:1077-1085 | A fetch keeps the transfer invariant |
| `FileTransfer.AckKeeps` | mitogen/service.py:1098-1107 | An acknowledgement never exceeds what is outstanding, and keeps the transfer invariant |
| `FileTransfer.ShutKeeps` | mitogen/service.py:959-973 | A shutdown keeps the transfer invariant |
| `FileTransfer.StepKeeps` | mitogen/service.py:978-1107 | Every step keeps: unacked is the bytes of chunks and acknowledgements in flight; no job waits while the window is open; what a receiver has, what is in flight to it and what its job will send make up its file and one close |
| `FileTransfer.WindowBound` | mitogen/service.py:896-896 | In every run at most 1179621 bytes are in flight |
| `FileTransfer.Received` | mitogen/service.py:1141-1153 | A receiver always holds a prefix of its file; closed without a shutdown, it holds the whole file, and nothing comes after the close |
| `FileTransfer.OkMeansWhole` | mitogen/service.py:1153-1164 | The byte count is right if and only if the contents are, shutdown or not |
| `FileTransfer.NoStall` | mitogen/service.py:980-1000 | While a transfer is not closed, a delivery is possible |
| `FileTransfer.DeliveriesFinish` | mitogen/service.py:978-1107 | Deliveries alone finish every transfer within a bounded number of steps |
| `FileTransfer.Get` | mitogen/service.py:1141-1153 | The receiving loop stores and acknowledges every byte and stops at the close |
| `Modules.RequestOrderly` | mitogen/core.py:1624-1645 | A request runs its callback at once, joins those waiting, or sends the one GET_MODULE for its name |
| `Modules.LoadOrderly` | mitogen/core.py:1601-1622 | An arriving module runs all callbacks waiting for it, after it is cached |
| `Modules.SendAllExtends` | mitogen/parent.py:2775-2796 | Forwarding a module puts everything it newly marks as sent on the stream, the module included |
| `Modules.RespondExtends` | mitogen/master.py:1228-1244 | Whatever the master is asked for, the module or a negative response is on the stream, unless it was sent before |
| `ModuleRepeats.SendAllExtra` | mitogen/parent.py:2787-2796 | A forwarder puts on a stream exactly the modules it newly marks as sent |
| `ModuleRepeats.RelatedRaisesIff` | mitogen/master.py:1228-1244 | Building what is sent along with a module raises if and only if a related module cannot be built, was not sent, and has its parent package sent or asked for |
| `ModuleRepeats.RespondExtra` | mitogen/master.py:1228-1244 | A response puts a name on the stream without recording it if and only if that name was asked for and the request raised |
| `ModuleRepeats.SentAgainIff` | mitogen/master.py:1228-1244 | A response carries a name if and only if it newly marks it as sent, or the name was asked for and the request raised |
| `ModuleRepeats.RespondSends` | mitogen/master.py:1228-1244 | A request that does not raise makes the master mark as sent, and send, the module and exactly those related ones that are in its own package or in a package that was sent; one that raises ends in a negative response |
| `ModuleRepeats.SendAllSends` | mitogen/parent.py:2775-2796 | A forwarder sends the module and exactly those related ones that it has |
| `ModuleRepeats.SentTwice` | mitogen/master.py:1216-1244 | A master that sends a name twice on one stream |
| `ModuleSteps.GetKeeps` | mitogen/parent.py:2761-2773 | Handling a GET_MODULE keeps the network invariant |
| `ModuleSteps.LoadKeeps` | mitogen/core.py:1601-1622 | Handling a LOAD_MODULE, with all the forwarding it causes, keeps the network invariant |
| `ModuleSteps.FwdKeeps` | mitogen/parent.py:2733-2759 | Handling a FORWARD_MODULE keeps the network invariant |
| `ModuleSteps.PreloadKeeps` | mitogen/master.py:1277-1299 | Forwarding a module from the master keeps the network invariant |
| `ModuleSteps.StepKeeps` | mitogen/parent.py:2707-2796 | Every step keeps: what counts as sent to a context is cached there or in flight; what a context waits for has its request in flight, waits at its parent, or is in flight down |
| `ModuleRuns.NoStrandedImport` | mitogen/core.py:1624-1645 | While anybody waits for a module, a message is in flight that some context on the way to the master can handle |
| `ModuleRuns.QuietMeansDone` | mitogen/core.py:1601-1645 | In every run, once all messages have been handled, every callback has run exactly once with its module cached |
| `ModuleOutcomes.RunRight` | mitogen/master.py:1216-1244 | In every run, of a module that the master can build, with all that is related to it, nothing but that module is ever under way or cached, and no negative response |
| `ModuleOutcomes.ImportEnds` | mitogen/core.py:1717-1726 | In every run, once all messages have been handled, every import has ended: with exactly the module that the master builds or with an ImportError; with the module if that and all that is related to it can be built, with the error if it cannot be built |
| `ModuleRuns.AskedOnce` | mitogen/core.py:1624-1645 | In every run a context asks for a name at most once, no callback runs twice or too early, and what is cached is what the master builds or a negative response |
| `ModuleRuns.ForwardedIsCached` | mitogen/parent.py:2733-2756 | In every run a FORWARD_MODULE finds its module in the cache |
| `ModuleRepeats.RunExtra` | mitogen/master.py:1216-1244 | In every run, a stream has carried a name once for each request for it that raised, and once more if the name is marked as sent |
| `ModuleRepeats.CarriedTwiceIff` | mitogen/master.py:1216-1244 | In every run, a stream carries a name twice if and only if two requests for it raised, or one did and the name was sent after all |
| `ModuleRepeats.LoadedOnce` | mitogen/parent.py:2787-2796 | In every run, forwarders put a module on each stream at most once, and so does the master unless building it or something related to it fails |
| `Preloading.Swap` | mitogen/parent.py:2733-2759 | While nobody waits for a module, deliveries to two contexts commute |
| `Preloading.CatchUp` | mitogen/parent.py:2733-2759 | Whatever has been delivered so far, the rest can be delivered so as to end where any other order ends |
| `PreloadPaths.DeliveriesEnd` | mitogen/parent.py:2733-2759 | What is under way can always be delivered |
| `PreloadPaths.EndsAlike` | mitogen/parent.py:2733-2759 | In whatever order that is done, the state in the end is the same |
| `PreloadPaths.Turn` | mitogen/master.py:1277-1299 | Forwarding a path without waiting in between ends where forwarding each name after the ones before it have settled ends |
| `PreloadCargo.TurnBrings` | mitogen/parent.py:2733-2759 | A module forwarded when nothing is under way leaves the cache of every context on the way as computed link by link from the state before, and all others as they were, in whatever order the messages are delivered |
| `PreloadArrives.ForwardedIff` | mitogen/parent.py:2733-2759 | Such a module is cached at its target in the end if and only if it was before, or no link on the way but the first and the last counted it as sent |
| `PreloadArrives.TurnIff` | mitogen/master.py:1277-1299 | Of the packages forwarded one behind the other, each is cached at the target after its own turn if and only if it was before, or no link on the way counted it as sent when its turn came; any other module is if and only if it was before or came along as related |
| `PreloadArrives.PathHas` | mitogen/master.py:1277-1299 | After all turns a module is cached at the target if and only if it was at the start, or the turn of some package carried it over the last link |
| `PreloadArrives.PathArrives` | mitogen/master.py:1277-1299 | So a package that no link on the way counts as sent when its turn comes is cached at the target when all have been forwarded |
| `PreloadStops.QuietIsStill` | mitogen/core.py:1601-1645 | When all messages have been handled, nobody waits for a module |
| `PreloadStops.StopsShort` | mitogen/parent.py:2746-2747 | A run in which a context imports a module and the master then forwards it to a context below: in whatever order the messages are delivered, it does not arrive |
| `PreloadStops.ComesAlong` | mitogen/parent.py:2746-2747 | It does if another module that it is related to is forwarded behind it |
| `ImporterCode.ContextImporter.RequestModule` | mitogen/core.py:1624-1645 | The method makes the request step |
| `ImporterCode.ContextImporter.OnLoadModule` | mitogen/core.py:1601-1622 | The method, loop over callbacks included, makes the load step |
| `ImporterCode.ChildStream.ForwardModuleAndRelated` | mitogen/parent.py:2775-2796 | The loop over related modules makes the forwarding step |
| `ImporterCode.ChildStream.SendModuleAndRelated` | mitogen/master.py:1228-1244 | The loop over related modules, cut short by a failure, makes the responding step |
| `ImporterCode.ChildStream.ForwardOneModule` | mitogen/master.py:1277-1299 | The loop over packages makes the preloading step |
| `Related.FindRelated` | mitogen/master.py:1043-1053 | On any finite import graph, cyclic or not, ends with exactly the names reachable in one or more steps, without the name itself |
| `Handles.AddAgrees` | mitogen/core.py:3478-3492 | A registration keeps _handle_map and _handles_by_respondent in agreement if and only if it does not overwrite a handler that expects replies from another respondent |
| `Handles.RemoveAgrees` | mitogen/core.py:3411-3420 | Removing a handler keeps them in agreement |
| `Handles.GoneAgrees` | mitogen/core.py:3494-3498 | A respondent's disconnection removes exactly its handlers |
| `Handles.ExitAgrees` | mitogen/core.py:3311-3319 | The broker's exit empties the table, and leaves the index stale if and only if some reply was expected |
| `Handles.RunAgrees` | mitogen/core.py:3411-3557 | Over any run, the two agree throughout if and only if no such registration and no such exit occurs |
| `Handles.OverwriteDisagrees` | mitogen/core.py:3478-3492 | A run in which they disagree because a handler was overwritten |
| `Handles.ExitDisagrees` | mitogen/core.py:3311-3319 | A run in which they disagree because a reply was outstanding at the exit |
| `Handles.DeliverFaithful` | mitogen/core.py:3534-3557 | A delivery keeps the history of every registration sound |
| `Handles.FinishFaithful` | mitogen/core.py:3494-3498 | So do the calls on disconnection and on exit |
| `Handles.OneShot` | mitogen/core.py:3551-3557 | In every run, a persist=False handler is called at most once, and exactly once if it left the table other than by del_handler or an overwriting registration |
| `Handles.DeliverIff` | mitogen/core.py:3534-3557 | A message is the next entry in the history of whoever is registered for its handle if and only if the policy allows it and, where replies from a context are expected, it is from that context or dead; a one-shot handler is then gone; otherwise nothing changes |
| `Handles.HearsOnlyRespondent` | mitogen/core.py:3542-3548 | In every run, no function is called with a refused message, and none that expects replies from a context with a message from another that is not dead |
| `Handles.NewHandle` | mitogen/core.py:3478-3479 | In every run with well-known explicit handles, a handler registered without a handle gets one that is free, greater than any before |
| `Handles.GoneTells` | mitogen/core.py:3494-3498 | A disconnection gives exactly the handlers that expect replies from that context a last call |
| `Handles.ExitTellsAll` | mitogen/core.py:3311-3319 | The exit gives every handler left a last call and empties the table |
| `HandlesCode.Router.AddHandler` | mitogen/core.py:3478-3492 | The method makes the registration step, refusing a duplicate; handle 0 means a new one |
| `HandlesCode.Router.DelHandler` | mitogen/core.py:3411-3420 | The method makes the removal step or reports that there is no such handle |
| `HandlesCode.Router.Invoke` | mitogen/core.py:3534-3557 | The method makes the delivery step: invalid handle, unexpected context, refused, or called |
| `HandlesCode.Router.OnRespondentDisconnect` | mitogen/core.py:3494-3498 | In any order of the set, the loop makes the disconnection step |
| `HandlesCode.Router.OnBrokerExit` | mitogen/core.py:3311-3319 | In any order of the table, the loop makes the exit step |
| `Timers.HeadIsEarliest` | mitogen/parent.py:641-652 | The head of the heap is due first |
| `Timers.Push` | mitogen/parent.py:654-668 | Adding to the heap keeps it a heap with one more timer |
| `Timers.PopEarliest` | mitogen/parent.py:670-679 | Removes the head, a timer due no later than any other, and keeps a heap of the rest |
| `Timers.TimerList.Schedule` | mitogen/parent.py:654-668 | Adds one new active timer and nothing else; makes the schedule step of the run model |
| `Timers.TimerList.GetTimeout` | mitogen/parent.py:641-652 | None if and only if no active timer is left; otherwise the time until the earliest active one, or 0; drops cancelled timers only |
| `Timers.TimerList.Expire` | mitogen/parent.py:670-679 | Calls every due timer that is active once, earliest first, and no cancelled or future one; what is not due stays; makes the expire step of the run model and calls whom that calls |
| `Timers.Timer.Cancel` | mitogen/parent.py:608-613 | Cancelling takes one timer from the active ones of whichever list it is in |
| `TimerRuns.CalledIff` | mitogen/parent.py:641-679 | Over any run of the steps that the three methods are proved to make, a timer is called by the first expire() that finds it due, if it was not cancelled before, and by no other |
| `Selects.LoopsIffUnder` | mitogen/select.py:199-207 | _check_no_loop raises if and only if the select to be added to is somewhere underneath what is added |
| `Selects.JoinForest` | mitogen/select.py:211-226 | An addition that passes the check keeps the nesting an acyclic forest |
| `Selects.AddCovered` | mitogen/select.py:211-237 | add() succeeds if and only if it closes no cycle, and leaves every member with at least as many tokens as items, at every level above |
| `Selects.NotifyCounts` | mitogen/select.py:154-157 | A notification adds exactly one token for each level above |
| `Selects.NotifyAppends` | mitogen/select.py:154-157 | Each at the end of its level |
| `Selects.PutCovered` | mitogen/select.py:154-157 | An item put anywhere is covered by tokens all the way up |
| `Selects.DrainCovered` | mitogen/select.py:340-348 | Items taken behind a select's back only leave spare tokens |
| `Selects.GetFinds` | mitogen/select.py:324-348 | get_event(block=False) finds an item if there is one anywhere underneath, and touches no token elsewhere |
| `Selects.GetCovered` | mitogen/select.py:324-348 | It times out if and only if size() is 0; otherwise it takes one item from the queue it names; coverage is kept |
| `Selects.NoMembersIff` | mitogen/select.py:324-326 | The error for an empty select is raised if and only if this select has no members |
| `Selects.RunKeeps` | mitogen/select.py:154-348 | In every run that builds, feeds and reads selects, the nesting is a forest and everything is covered |
| `Selects.TimesOutIffEmpty` | mitogen/select.py:270-282 | So in every run a get that does not block times out if and only if nothing is buffered |
| `SpareTokens.GetExact` | mitogen/select.py:324-348 | Where tokens are as many as items, a get finds an item and leaves them as many |
| `SpareTokens.GetFirst` | mitogen/select.py:324-348 | Where tokens are as many as items, a get takes the first token and the first item of what gave it: first come, first served |
| `SpareTokens.StepExactIff` | mitogen/select.py:154-348 | A step keeps every member's tokens as many as its items if and only if it takes no item from a queue or select that belongs to a select |
| `SpareTokens.RunExactIff` | mitogen/select.py:154-348 | So over whole runs: as many throughout if and only if no step takes such an item |
| `SpareTokens.EmptyIsEmpty` | mitogen/select.py:284-291 | In every run, empty() implies size() == 0 |
| `SpareTokens.EmptyIffEmpty` | mitogen/select.py:284-291 | After a run without such steps, empty() holds if and only if size() is 0 |
| `SpareTokens.EmptyIsWrong` | mitogen/select.py:284-291 | A run after which size() is 0 and empty() does not hold |
| `Minify.StripComments` | mitogen/minify.py:65-85 | Drops exactly the comments after row 2; every line end stands right behind its line |
| `Minify.Blank` | mitogen/minify.py:105-112 | A dropped line is replaced by one NL for each of its rows, followed by its layout on the row after the last |
| `Minify.StripDocstrings` | mitogen/minify.py:88-121 | The method, with its stack of tokens held back, computes the pass that the next lemmas are about |
| `Minify.StripKeepsOrder` | mitogen/minify.py:88-121 | In one sequence: layout and code come out as they went in, each at its place among the others, without the strings and line ends of string-only lines |
| `Minify.StripKeepsCommentsIff` | mitogen/minify.py:95-121 | With the comments of the first two rows in that sequence it is kept if and only if no such comment follows a token that is held back and survives |
| `Minify.StrippedComments` | mitogen/minify.py:95-98 | All comments come out, in their order |
| `Minify.CommentLeavesBlock` | mitogen/minify.py:95-98 | A comment that comes out before the INDENT it followed |
| `Minify.LateSkeleton` | mitogen/minify.py:65-85 | Dropping comments changes neither which lines are string-only nor anything in that sequence |
| `Minify.WaitEnds` | mitogen/minify.py:105-112 | Lines end on the rows they ended on; a string-only line gives way to an end on each of its rows |
| `Minify.Reindent` | mitogen/minify.py:124-143 | The loop computes the function that the next lemmas are about, and never pops an empty stack |
| `Minify.ReindentPlaces` | mitogen/minify.py:124-143 | INDENT is one space for each level; every other token keeps its distance from the indentation of its block, or stands at the left margin if that would be further left |
| `Minify.KeepsIndentation` | mitogen/minify.py:140-140 | What stood at the indentation of its block stands in the column of the block's depth |
| `Minify.GapIff` | mitogen/minify.py:140-142 | Neighbours on one row keep the gap between them if and only if the first is not squeezed against the margin |
| `Minify.GapAfterRows` | mitogen/minify.py:140-142 | After a token that ends on a later row, the gap stays if and only if what follows does not move |
| `Minify.RunsInto` | mitogen/minify.py:140-142 | A source in which what follows such a token comes to start before its end |
| `Minify.ReindentTwice` | mitogen/minify.py:124-143 | Doing it twice is doing it once |
| `Minify.FitsByKinds` | mitogen/minify.py:124-143 | Whether indentation is balanced is a matter of the layout tokens alone |
| `Minify.MinimizeSource` | mitogen/minify.py:46-62 | All three passes: layout and the code outside string-only lines stay in one sequence, with text and rows, so that all code stays in its block; exactly the comments of the first two rows stay, at their places if and only if the source meets the condition above; every token stands where ReindentPlaces says; lines end on the rows they ended on; indentation stays balanced |

## Left out

- Processes, sockets, pollers, signals, pickling, compression, regular expressions: payloads are opaque bytes, and the answers of system calls are parameters (how much a write took, how a read is cut).
- The poller raising an exception in `_get_sleep`, and reuse of socket pairs between waits.
- Logging, statistics, `on_message` hooks, and the `disconnect` events fired on `Context` objects.
- Detaching, upgrading a child into a parent in mid-life, broker shutdown grace periods, connection methods, and everything under ansible_mitogen.
- Listening sockets that mark streams with an authority (mitogen/unix.py): a node's `stamp` is modelled and taken into account in `Router` and `LoopFreedom`, but empty in the tree of `RoutingNet`.
- RoutingNet.Next: streams are named by the id of the context at the far end, which is unambiguous because ids are never reused (`ConvergenceConnect.StepKeeps`); names in ADD_ROUTE are dropped; granting a block of ids is one step; route messages are taken to fit `max_message_size`; a message read from above has no effect on tables, so messages on their way down are not part of the state.
- RoutingNet.Apply: DEL_ROUTEs on their way down are kept as a set from which any may arrive at any time, any number of times, which allows more than a FIFO does.
- IdAllocator and ChildIdAllocator: steps of `RoutingNet` rather than classes of their own.
- EndToEnd.Link.Send: the stream being closed by a handler that runs inside the receive loop is not modelled.
- Delivery.ConvergedDelivery: for messages whose source is their authority, as every message is that has not come in on a marked stream; `Authority.AcrossIff` covers marked streams for one hop.
- FileServiceCode.FileStreamState.Fetch: whether a path is registered and whether its file opens are parameters, a file is the bytes that reading it to its end yields, and one stream is modelled since streams share nothing.
- FileTransfer.Next: receivers acknowledge every chunk and none disconnects in mid-transfer; after a shutdown no request is served.
- Modules.Respond: what the master builds for a name is fixed and given by a map; a name missing from it stands for any exception on the way. Which related modules it skips follows the source.
- ModuleNet.Next: contexts do not disconnect, and nobody asks for `mitogen` or `mitogen.core`, which every stream counts as sent from the start and a parent would therefore not answer.
- PreloadArrives.ForwardedIff: for states in which nobody waits for a module, which is every state of a run once all messages have been handled (`PreloadStops.QuietIsStill`); imports made while the modules are on their way are covered by the invariant of `ModuleSteps.StepKeeps` only.
- Related.FindRelated: the result is a set; the source returns it sorted. What a single module imports is given.
- Bootstrap.BootstrapStream.OnReceive: the preamble that is written when the first announcement arrives.
- Handles.Next: handlers do not add or delete handlers while they are being called.
- Timers.TimerList.Expire: functions do not schedule or cancel timers while it runs; times are real numbers; the heap is written out here, where the source calls `heapq`.
- Waking.Next: calls made on the broker's own thread run at once and are not queued, so they are no steps; `defer` after the broker's exit is not modelled.
- Selects.Next: selects are values in a map rather than objects, so aliasing is not modelled; a `put` with its notifications and a `get_event(block=False)` are one step each; no oneshot, `remove` or `close`; no adding of an owned receiver; nobody sleeps on a member directly.
- Minify.MinimizeSource: token streams are given, with rows that do not go back and balanced layout, ending in ENDMARKER; the columns of line ends are stated for the first pass only; the tokenizer and untokenizer are not part of this model.
- ResourceForwarder and ResourceResponder, which repeat the module chain for resources without related names.
