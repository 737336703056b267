# A verified model of the ladish session daemon

ladish keeps a virtual patchbay over JACK and supervises the applications that use it. This
project models the parts of the daemon whose correctness is a matter of in-memory state, and
proves what they keep over whole runs.

* **The patchbay graph** (`Patchbay`, `Topologies`, `Graphs`, `Snapshot`, `Refcounts`).
  `Graphs.Graph` is a graph with its three lists, its id counters, its version, and a ghost log of
  the signals it sent. `Patchbay.Apply` is a *strict* listener: it refuses a signal that names
  something it does not know, shows something twice, or hides something still in use. `Valid()`
  says that the structure is sound (`Topologies.Sound`: each client's port list holds exactly its
  own ports, both ends of a connection are in the graph, ids are non-zero, distinct and below their
  counters), that versions in the log never go back, and, for a graph with an object path, that the
  visibility rule holds (`Topologies.Shown`) and that replaying the log gives exactly the visible
  part (`Topologies.Seen`). Every operation keeps `Valid()`, so the mirror property holds for every
  run; `Snapshot` ties it to the replies of `get_graph`. `Refcounts` adds that over any set of graphs
  a port's count is the number of graphs it is in, whichever operation takes or drops a reference.
* **The app supervisor** (`AppLife`, `AppRuns`, `SaveBarrier`, `Supervisor`). `AppLife` has the apps as values
  and what runs of exits, clears, stops and autoruns make of them; `AppRuns` follows answers and flags
  through all moves between saves; `SaveBarrier` is an automaton over
  the log of a save and what every accepted log has; `Supervisor.AppSupervisor` updates app objects
  in a list as the source does, keeps its log accepted, and remembers what each app was sent.
* **The child output reader** (`ChildLog`, `Loader`). A byte-at-a-time splitter and the runs of equal
  lines specify the 2048-byte buffer with its carry pointer and the log with repeat suppression. All
  streams are covered, also those with NUL bytes, behind which the reader sees no newline until its
  buffer is full.
* **The intrusive list** (`Klist`), on the heap, pointer by pointer.
* **The percent codec and the JACK address paths** (`Escape`, `JackPath`), on byte arrays.
* **Backup rotation** (`Rotate`), over a tree of directories whose calls may fail.
* **The command queue** (`CommandLog`, `CommandQueue`), with an automaton over its log.
* **The save filter, the recent items and the new-app names** (`SaveFilter`, `RecentStore`, `NewApp`).

`Lists`, `CStrings`, `Automata` and `Wrappers` hold what several of them use. Calls into D-Bus, JACK,
the file system, the process table and unseen handlers are parameters, so that every contract holds for
all their outcomes: the connections a connect handler accepts, the pids that starts yield, how much a
`read` returns, whether a directory can be made, which apps refuse to be saved, whether a rotation
succeeds. A command's own code and the faults of the file system are picked at will and remembered.

## Where the code does not do what one might expect

Each of these is proved, with the exact condition:

* Removing a port does not bump the version by itself. A listener that polls `get_graph` misses the
  removal of a visible port exactly if the port had no connection (`Snapshot.PollAfterRemoval`).
  Clearing a graph and hiding what JACK stands behind always bump it when listeners are told something.
* On a graph without an object path, hiding a port keeps the visibility rule exactly if the port has
  no visible connection (`Graphs.Graph.HidePort`).
* `ladish_cqueue_cancel` sets the flag of the head command only if that is the only command: its loop
  has overwritten the pointer otherwise (`CommandQueue.Queue.Cancel`).
* A save can leave answers behind: with exactly the apps that hold one at its end, if all have answered,
  except those that get it as their commandline (`AppRuns.LeftAnswers`). These are all that hold one if the
  rotation failed, and those that are not started any more if it succeeded. Whatever exits, starts, stops,
  autoruns, additions, removals and clears follow, the next save's assertion holds exactly if none of these
  apps is a started jack session app then (`AppRuns.NextSaveAsserts`, for the supervisor itself
  `Supervisor.AppSupervisor.NextSave`). One that is stopped when a later save
  begins and started while it goes on gets the old answer as its commandline (`AppRuns.WhoseAnswer`,
  `AppRuns.OldAnswerUsed`).
* Autorun asserts that no flagged app runs. From where that holds, exactly two things break it: starting a
  flagged app, as creating a new app does, and stopping running apps, until they have exited
  (`AppRuns.AutorunAsserts`, `AppRuns.RunCanAutorun`, `AppRuns.NewAppRunsFlagged`, `AppRuns.StopThenCanAutorun`).
* The assertion at the head of `ladish_app_send_signal` assigns `STARTED` to the state; every caller
  overwrites or expects it (`Supervisor.App.SendSignal`).
* Two apps may briefly have the same pid, since a reaped pid can be given out again; `child_exit`
  then takes the first. The outcome of all exits is still the same (`AppLife.ExitsSettle`).
* XML attribute escaping alone does not bring back a string that spells a percent triple
  (`Escape.XmlRoundTripWhen`).
* A rotation leaves a gap among the backups exactly if `dst` was missing below one of them
  (`Rotate.GapAfterRotation`), and no rotation with a gap succeeds (`Rotate.Rotate`).
* The repeat counter wraps: the log reads back exactly iff no line repeats 2^32 times in a row
  (`ChildLog.LogReadsBack`). An unfinished last line is never logged (`Loader.Child.Bury`).
* A saved connection cannot be loaded exactly if one of its ends is a port of a stopped app in a
  hidden client that has no app (`SaveFilter.SavedGraphIsClosed`, `SaveFilter.LeftoversLost`).
* Loading a saved recent file gives the same items exactly if none is empty or holds a newline
  or a NUL (`RecentStore.LoadSavedWhen`).
* Three bytes for each byte are room for escaped text and its NUL exactly if some byte stands for itself
  (`Escape.EscapedFits`, `Escape.Misfits`), and a parameter path can be read exactly if it is not empty
  (`JackPath.ReadPath`).

## Model

| member | source | states |
|---|---|---|
| `Patchbay.CatchUp` | daemon/graph.c:462-718 | A listener that has replayed earlier signals and goes on with the later ones ends where replaying all of them from nothing ends |
| `Patchbay.ReplayClosed` | daemon/graph.c:87-196 | Whatever signals a strict listener accepts, its mirror stays closed: each port has a known client, each link two known ports |
| `Patchbay.Strict` | daemon/graph.c:87-196 | What a strict listener accepts: only known clients, ports and connections, under the names they have, new ids for what appears, and nothing gone that is still in use |
| `Snapshot.GetGraph` | daemon/graph.c:462-718 | An older known version gets exactly the visible clients, ports and connections, each once, in list order and with all its fields; the current one gets two empty lists, a newer one an error |
| `Snapshot.DescribesView` | daemon/graph.c:515-716 | The lists the walk writes describe the visible part of the graph: nothing hidden, nothing missing, every connection end with its names |
| `Snapshot.DescribesOne` | daemon/graph.c:515-716 | A reply describes only one view |
| `Snapshot.AskOnceThenListen` | daemon/graph.c:462-718 | For signals as such: a reply that describes what the earlier ones say, brought up to date by the later ones, is what all of them say |
| `Snapshot.ListenToGraph` | daemon/graph.c:462-718 | For a graph and any operations on it: replaying the signals it sent since an earlier reply on what that reply describes gives its later view |
| `Snapshot.PollAfterRemoval` | daemon/graph.c:1216-1258 | Polling with the version known before misses the removal of a visible port exactly if the port had no connection, although the view changed |
| `Snapshot.RemovedPortIsUnseen` | daemon/graph.c:1235-1258 | The id of a removed visible port is in the view before and not in the view after |
| `Topologies.HideLink` | daemon/graph.c:1124-1134 | Hiding a visible connection is told by one disconnected signal that every up-to-date listener accepts and that leaves it up to date |
| `Topologies.ShowLink` | daemon/graph.c:1385-1405 | Showing a connection between visible ports is told by one connected signal in the same way |
| `Topologies.DropShownLink` | daemon/graph.c:1202-1214 | Removing a visible connection is told by one disconnected signal, and the lists, ids and both ends stay sound |
| `Topologies.AddShownLink` | daemon/graph.c:1650-1702 | Adding a visible connection is told by one connected signal with a fresh id |
| `Topologies.HidePort` | daemon/graph.c:1158-1168 | Hiding a port without visible connections is told by one disappeared signal |
| `Topologies.ShowPort` | daemon/graph.c:1136-1156 | Showing a port of a visible client is told by one appeared signal |
| `Topologies.RenamePort` | daemon/graph.c:2210-2258 | Renaming a visible port is told by one renamed signal |
| `Topologies.DropShownPort` | daemon/graph.c:1235-1258 | Removing a port without connections keeps the partition of the ports into client lists and is told by one signal |
| `Topologies.MoveHiddenPort` | daemon/graph.c:2094-2158 | Moving a hidden port to a client under a fresh id puts it into that client's list and no other, keeps the structure, and changes nothing a listener sees |
| `Topologies.HideClient` | daemon/graph.c:1170-1180 | Hiding a client without visible ports is told by one disappeared signal |
| `Topologies.ShowClient` | daemon/graph.c:1466-1487 | Showing a client is told by one appeared signal |
| `Topologies.RenameClient` | daemon/graph.c:2161-2208 | Renaming a client is told to listeners exactly if it is visible, and keeps every connection end known |
| `Topologies.AddShownClient` | daemon/graph.c:1506-1542 | Adding a visible client is told by one appeared signal with a fresh id |
| `Topologies.DropShownClient` | daemon/graph.c:1260-1294 | Removing an empty visible client is told by one disappeared signal |
| `Topologies.SeenOnce` | daemon/graph.c:462-718 | A graph has one view: two mirrors of the same graph are equal |
| `Graphs.Graph.MirrorShows` | daemon/graph.c:462-718 | What replaying the signals of a graph with a path gives: exactly the visible clients under their names, the visible ports with owner, name, flags and type, and the visible connections with the ids of their two ports |
| `Graphs.Graph.constructor` | daemon/graph.c:950-1005 | A new graph is sound, silent and empty, with ids and version starting at 1 |
| `Graphs.Graph.HideConnectionInternal` | daemon/graph.c:1124-1134 | Hides one connection and says so in one signal that names its two ends |
| `Graphs.Graph.HideConnections` | daemon/graph.c:1182-1200 | Hides exactly the connections of a port |
| `Graphs.Graph.HidePort` | daemon/graph.c:1425-1448 | Hides the port and, on a graph with an object path, its connections; without one the visibility rule survives exactly if the port had no visible connection |
| `Graphs.Graph.HideClient` | daemon/graph.c:1170-1180 | Hides one client; requires no visible port of it, as the source relies on |
| `Graphs.Graph.ShowClient` | daemon/graph.c:1466-1487 | Shows one client and says so in one signal |
| `Graphs.Graph.ShowConnection` | daemon/graph.c:1385-1405 | Shows one connection, clears its changing flag, and says so in one signal that names its two ends |
| `Graphs.Graph.TryConnectHiddenConnections` | daemon/graph.c:2322-2368 | Asks the connect handler, in list order, for exactly the hidden connections between visible ports that are not already changing, and marks those it accepts |
| `Graphs.Graph.ShowPortInternal` | daemon/graph.c:1136-1156 | Shows the port and its client if hidden, with one signal for each, then tries the hidden connections |
| `Graphs.Graph.RenameClient` | daemon/graph.c:2161-2208 | Renames one client, told with old and new name exactly if it is visible |
| `Graphs.Graph.RenamePort` | daemon/graph.c:2210-2258 | Renames one port, told with old and new name exactly if it is visible |
| `Graphs.Graph.AdjustPort` | daemon/graph.c:1489-1504 | Changes type and flags of a hidden port; nobody is told and the version stays |
| `Graphs.Graph.AddClient` | daemon/graph.c:1506-1542 | Adds a client with its handle, name and flag at the end under the next id, told exactly if it is visible |
| `Graphs.Graph.AddPort` | daemon/graph.c:1586-1647 | Adds the port with its fields to the end of both lists under the next id, takes a reference, and shows it if asked to, with its client; the signals name it by its fields |
| `Graphs.Graph.AddConnection` | daemon/graph.c:1650-1702 | Adds a connection from the first port to the second at the end under the next id; a visible one is told by one signal that names the two ends in this order |
| `Graphs.Graph.RemoveConnectionInternal` | daemon/graph.c:1202-1214 | Takes exactly one connection out; one signal names its two ends exactly if it was visible |
| `Graphs.Graph.RemovePortConnections` | daemon/graph.c:1216-1233 | Takes out exactly the connections of the port, one version step each |
| `Graphs.Graph.RemovePortInternal` | daemon/graph.c:1235-1258 | Takes the port out of both lists and drops its reference; the version grows only by its connections |
| `Graphs.Graph.RemovePort` | daemon/graph.c:2054-2070 | Takes the port out of both lists and out of the graph with exactly the connections it is an end of, and returns its client's id; or does nothing and returns 0 if it is not there |
| `Graphs.Graph.EmptyClient` | daemon/graph.c:1267-1275 | Removes exactly the ports of the client and their connections, each still alive when its turn comes even if the callback has just taken it out of the JACK graph |
| `Graphs.Graph.RemoveClientInternal` | daemon/graph.c:1260-1294 | Removes exactly the client, its ports and their connections; given the entries each port has elsewhere, it counts exactly these afterwards and is destroyed exactly if there are none |
| `Graphs.Graph.RemovePortCallback` | daemon/room.c:241-259 | The callback of a room: the port leaves the JACK graph with its connections, one reference goes, and its client goes too exactly if that was its only port; for a port that is not there nothing happens |
| `Graphs.Graph.RemoveConnection` | daemon/graph.c:1705-1741 | Removes the connection if forced, changing or not persistent, and hides it otherwise |
| `Graphs.Graph.Clear` | daemon/graph.c:1355-1373 | Nothing is left, every port counts exactly its entries in other graphs, and a poll sees it whenever listeners do |
| `Graphs.Graph.RemoveHiddenObjects` | daemon/graph.c:2879-2905 | Removes exactly the hidden clients with their ports and the hidden connections, says nothing, and leaves the view as it was |
| `Graphs.Graph.MovePort` | daemon/graph.c:2094-2158 | The port leaves the list of its owner for the end of the other client's, goes to the end of the list of ports, and gets that owner and a fresh id; everything else stays. Listeners have a visible port under the new owner and id with its old name, flags and type, nothing under the old id, and its visible connections ending in the new id |
| `Graphs.Graph.Relist` | daemon/graph.c:2118-2141 | The port leaves one client list for the end of the other and goes to the end of the list of ports, with the new owner and id and otherwise as it was; nothing else moves |
| `Graphs.Graph.TellDisconnected` | daemon/graph.c:2122-2132 | The first burst of a move: a listener forgets exactly the visible connections of the port |
| `Graphs.Graph.TellConnected` | daemon/graph.c:2143-2157 | The last burst of a move: it learns exactly those again, under their old ids, and one connection id is skipped for each |
| `Graphs.Graph.TrickDicts` | daemon/graph.c:2909-2970 | The whole burst is the identity on a listener's mirror, and every visible client, port and connection is announced again |
| `Graphs.Graph.HideNonVirtual` | daemon/graph.c:2421-2461 | Hides exactly the visible clients with a JACK id, their visible ports and the visible connections that touch them, and resets exactly those ids; a poll sees it whenever listeners do |
| `Topologies.SharedPort.AddRef` | daemon/port.c:146-149 | One reference more |
| `Topologies.SharedPort.DelRef` | daemon/port.c:151-160 | One reference less; destroyed exactly when none is left |
| `Refcounts.AddPort` | daemon/graph.c:1627-1640 | Over any set of graphs, a port's count stays the number of graphs that hold it |
| `Refcounts.RemovePort` | daemon/graph.c:1235-1258 | The same when a port leaves a graph; it is destroyed exactly if that was the last one |
| `Refcounts.Clear` | daemon/room.c:241-259 | The same when a room's graph is cleared and the callback takes each port out of the JACK graph first |
| `Refcounts.RemoveClient` | daemon/graph.c:1545-1562 | The same when a client goes, with or without such a callback; each of its ports is destroyed exactly if no graph holds it any more |
| `Refcounts.RemoveHiddenObjects` | daemon/graph.c:2879-2905 | The same when what is hidden is forgotten: exactly the ports of hidden clients go, and they are destroyed exactly if no other graph holds them |
| `Refcounts.CountApart` | daemon/port.c:146-160 | A port is in one graph more than it is in among the others exactly if this one holds it |
| `Supervisor.AppSupervisor.constructor` | daemon/app_supervisor.c:132-186 | A new supervisor is empty and idle, and ids start at 1 |
| `Supervisor.AppSupervisor.Add` | daemon/app_supervisor.c:403-519 | Appends a stopped app with the given level, flag and commandline under a fresh, never reused id; a jack session app is refused while there is no directory |
| `Supervisor.AppSupervisor.StartApp` | daemon/app_supervisor.c:976-1023 | The app gets the pid of its process and is STARTED, or stays stopped if there is none; in both cases it is no zombie |
| `Supervisor.AppSupervisor.SetDirectory` | daemon/app_supervisor.c:848-881 | The directory is known from then on; not while a save is pending, as the source asserts |
| `Supervisor.AppSupervisor.StopApp` | daemon/app_supervisor.c:785-799 | The app is sent a SIGTERM, or its LASH client is asked to quit, and is STOPPING with its pid still there |
| `Supervisor.AppSupervisor.KillApp` | daemon/app_supervisor.c:1055-1059 | The app is sent a SIGKILL and is being killed with its pid still there |
| `Supervisor.AppSupervisor.RemoveApp` | daemon/app_supervisor.c:1025-1028 | Takes exactly this app out; not one that a save still waits for |
| `Supervisor.AppSupervisor.ChildExit` | daemon/app_supervisor.c:909-950 | The first app with the pid stops, or goes if it is a zombie; nothing else changes; true iff there was one |
| `Supervisor.AppSupervisor.Clear` | daemon/app_supervisor.c:801-838 | Stopped apps go; those that run stay in order, are sent a SIGTERM or asked to quit, and are STOPPING zombies; true iff none is left |
| `Supervisor.AppSupervisor.Stop` | daemon/app_supervisor.c:1167-1182 | Exactly the running apps are flagged for autorun, sent a SIGTERM or asked to quit, and STOPPING; the others stay as they are |
| `Supervisor.AppSupervisor.Autorun` | daemon/app_supervisor.c:1141-1165 | For any outcomes of the starts, the k-th flagged app gets the k-th pid, up to the first start that fails, whose flag is gone already; nothing else changes |
| `Supervisor.AppSupervisor.Save` | daemon/app_supervisor.c:1184-1271 | Begins exactly one save of the started jack session apps, asked in list order. It is over at once, with success only if there are none, if there are none, the directory cannot be made or all refuse; otherwise exactly those that did not refuse still have to answer, and no app has changed. Started level 1 apps are sent a SIGUSR1, unless the directory cannot be made |
| `Supervisor.AppSupervisor.Reply` | daemon/app_supervisor.c:728-760 | An answer is noted with its app and shortens the list of who is waited for by one; the last one, and no other, completes the save, and then each app's new commandline is used, kept or discarded as all answers and the rotation say |
| `Supervisor.AppSupervisor.AppSaveComplete` | daemon/app_supervisor.c:728-760 | The same for an answer or an inline refusal at any moment of a save |
| `Supervisor.AppSupervisor.JsSaveComplete` | daemon/app_supervisor.c:270-336 | Whether the rotation succeeds or not: the new commandlines take effect for all or none, the temporary directory is forgotten, and the callback is told which |
| `AppLife.AllOrNone` | daemon/app_supervisor.c:279-320 | The commandlines of all started jack session apps are replaced, each by the answer that its app holds then, if all hold one and the rotation succeeded; otherwise no commandline changes |
| `AppLife.CanSaveAgain` | daemon/app_supervisor.c:301-305 | At the very end of a save, the assertion of a next one would hold exactly if an answer is missing, the rotation succeeded, or no jack session app is started any more |
| `AppLife.AnswerOutlivesSave` | daemon/app_supervisor.c:309-320 | One way to it: an app that answers and exits before the save succeeds keeps its answer, and once restarted makes the next save's assertion fail |
| `AppRuns.LeftAnswers` | daemon/app_supervisor.c:279-320 | After a save an app holds an answer exactly if it held one at the end, all had answered, and it was not given its new commandline |
| `AppRuns.CanSaveLater` | daemon/app_supervisor.c:1190-1200 | From any state and through any run of exits, starts, stops, kills, autoruns, additions, removals and clears: a save's assertion holds exactly if no started jack session app is one that held an answer |
| `AppRuns.NextSaveAsserts` | daemon/app_supervisor.c:1190-1200 | Through any such run after a save: the next save's assertion holds exactly if no started jack session app is one that the save left with an answer |
| `Supervisor.AppSupervisor.NextSave` | daemon/app_supervisor.c:1190-1200 | The same for a supervisor in whose state a save has just ended, over the moves its operations make |
| `AppRuns.WhoseAnswer` | daemon/app_supervisor.c:309-320 | A successful save gives each started jack session app what it was told during this save, or, if it was told nothing, what an earlier save left with it; only an app that this save did not ask can be of the second kind |
| `AppRuns.OldAnswerUsed` | daemon/app_supervisor.c:309-320 | Such an app: left with an answer, stopped when a save begins and started while it goes on, it gets the old answer |
| `AppRuns.RunTells` | daemon/app_supervisor.c:728-746 | All along a run, who holds which answer is what was told to whom, and ids stay in order |
| `AppRuns.AutorunAsserts` | daemon/app_supervisor.c:1141-1165 | From where no flagged app runs, each move keeps that exactly unless it starts a flagged app or stops running ones without their exits |
| `AppRuns.RunCanAutorun` | daemon/app_supervisor.c:1141-1165 | So it holds all along a run exactly if no such move is made |
| `AppRuns.StopThenCanAutorun` | daemon/app_supervisor.c:1167-1182 | After a stop and all its exits it holds again, whatever was flagged before |
| `AppRuns.NewAppRunsFlagged` | daemon/cmd_new_app.c:126-138 | A new app is added flagged and started at once: until it has exited, an autorun would fail the assertion |
| `AppLife.ExitsSettle` | daemon/app_supervisor.c:909-950 | The exits of all processes give the same list in whatever order they come, even if two apps got the same pid |
| `AppLife.ClearEmpties` | daemon/app_supervisor.c:801-838 | After a clear, the exits of what was running remove one app each, in any order, until the list is empty |
| `AppLife.Lifeless` | daemon/app_supervisor.c:814-837 | Nothing is left after a clear exactly if nothing was running |
| `AppLife.StopThenAutorun` | daemon/app_supervisor.c:1141-1182 | After a stop, all exits and an autorun whose starts succeed, exactly the apps that ran at the stop or were flagged already run, under their old ids, and no flag is left |
| `AppLife.AutoranAll` | daemon/app_supervisor.c:1141-1165 | An autorun whose starts succeed starts every flagged app and touches no other |
| `SaveBarrier.CompletedOnce` | daemon/app_supervisor.c:1184-1271 | In every log: a save that is over called its own callback before the next one began; one that is not is the last |
| `SaveBarrier.EndedOnce` | daemon/app_supervisor.c:728-760 | Between two callback calls a save began, and it is its callback that is called: none is called twice |
| `SaveBarrier.NeverEarly` | daemon/app_supervisor.c:728-760 | A save completes only after each of its apps was asked and then answered, or fails with none asked |
| `SaveBarrier.WaitsUntilAnswered` | daemon/app_supervisor.c:728-760 | An app that was asked is waited for until it answers |
| `ChildLog.ChunkIndependence` | daemon/loader.c:354-450 | For every byte stream, however it is cut into reads: splitting continues from what was carried as if byte by byte |
| `ChildLog.SplitKeepsBytes` | daemon/loader.c:419-447 | The pieces and what is carried are the whole stream, no byte lost, doubled or moved; a piece is a line or a full buffer |
| `ChildLog.FeedQuiet` | daemon/loader.c:377-447 | Bytes without a newline only lengthen what is carried |
| `ChildLog.OnePiece` | daemon/loader.c:374-447 | A line of fewer than 2047 bytes with its newline is one piece, and so are 2047 bytes among which no newline is seen |
| `ChildLog.PiecesMean` | daemon/loader.c:374-447 | The lines, the truncated blocks and the bytes that pieces stand for |
| `ChildLog.ShownMeans` | daemon/loader.c:379-417 | A line that comes once is one entry; one that comes n times in a row is its text, a mark and the count n |
| `ChildLog.ReadMeans` | daemon/loader.c:97-114 | Such entries read as n copies of the line, and a truncated block as no line |
| `ChildLog.SiftMeans` | daemon/loader.c:379-440 | Entries about lines and about truncated blocks sifted apart, and what maximal runs are |
| `ChildLog.CountsFitWhen` | daemon/loader.c:397-397 | The counter holds the runs exactly if none has 4294967296 lines |
| `ChildLog.ClosedShowsRuns` | daemon/loader.c:379-417 | The log of a buried child shows each maximal run of equal lines once, marked and counted exactly if it is longer than one |
| `ChildLog.RunsExpand` | daemon/loader.c:383-417 | The runs are those of the lines, as long as they can be |
| `ChildLog.LogReadsBack` | daemon/loader.c:97-114 | The log reads back as exactly the complete lines, each as often as it came, iff no line repeats 2^32 times in a row |
| `ChildLog.WrapLoses` | daemon/loader.c:397-397 | A wrapped counter loses lines; nothing is ever invented |
| `ChildLog.TruncatedAreLogged` | daemon/loader.c:425-440 | Truncated blocks are logged as they came and in order, whatever repeats around them |
| `Loader.Child.constructor` | daemon/loader.c:577-580 | A new child has read and logged nothing |
| `Loader.Child.LogLine` | daemon/loader.c:381-413 | One line is logged, suppressed or counted as the specification says |
| `Loader.Child.TakeLines` | daemon/loader.c:377-417 | The newline loop cuts the buffer as the byte-at-a-time splitter does, with every index inside the 2048 bytes |
| `Loader.Child.KeepRest` | daemon/loader.c:419-446 | What is left is moved to the front, or logged as truncated if it fills the buffer |
| `Loader.Child.Accept` | daemon/loader.c:374-447 | One read is taken in: buffer, carry, last line and log are what splitting everything so far gives |
| `Loader.Child.ReadOutput` | daemon/loader.c:354-450 | However the reads are cut, what was consumed and what remains is what was available, and something remains only if a read came short |
| `Loader.Child.Bury` | daemon/loader.c:117-142 | The final flush completes the log; an unfinished last line is never logged |
| `Klist.ListAdd` | common/klist.h:90-111 | Insertion at the front |
| `Klist.ListAddTail` | common/klist.h:121-124 | Insertion at the back |
| `Klist.ListDel` | common/klist.h:204-209 | Deletes exactly this entry and poisons its pointers |
| `Klist.ListDelInit` | common/klist.h:263-267 | Deletes exactly this entry, which becomes an empty list |
| `Klist.ListMove` | common/klist.h:274-278 | Moves an entry to the front of another list |
| `Klist.ListMoveWithin` | common/klist.h:274-278 | Moves an entry to the front of its own list |
| `Klist.ListMoveTail` | common/klist.h:285-290 | Moves an entry to the back of another list |
| `Klist.ListMoveTailWithin` | common/klist.h:285-290 | Moves an entry to the back of its own list |
| `Klist.ListEmpty` | common/klist.h:296-299 | True iff there is no entry |
| `Klist.ListSplice` | common/klist.h:338-342 | Splicing is concatenation |
| `Klist.ListSpliceInit` | common/klist.h:351-358 | Splicing is concatenation and leaves the other list empty |
| `Klist.RemoveDoomed` | common/klist.h:406-408 | The safe walk with deletion of the current entry visits every original entry once and in order, and keeps the others |
| `Klist.RingMeans` | common/klist.h:78-98 | A list is a ring of pointers: each entry once, next and prev leading from entry to entry and round through the head, both ways |
| `Klist.RingOnce` | common/klist.h:78-98 | The pointers spell exactly one sequence |
| `Klist.ComesBack` | common/klist.h:78-98 | Only the last entry leads back to the head |
| `Escape.EscapeTo` | daemon/escape.c:33-76 | Writes the escaped string behind what is there, moves both pointers to where they stopped, touches nothing else |
| `Escape.EscapesWhich` | daemon/escape.c:38-64 | With both flags exactly the seven bytes are escaped, with the XML flag alone exactly the double quote, the ampersand and the less-than sign, and otherwise none |
| `Escape.EscapesHow` | daemon/escape.c:60-72 | An escape is a percent sign and the two upper-case hexadecimal digits of the byte, the higher first; text is escaped byte by byte |
| `Escape.UnescapeTo` | daemon/escape.c:84-115 | Decodes into any buffer, the source itself included, with the same result |
| `Escape.UnescapesTriple` | daemon/escape.c:90-107 | A percent sign and two such digits are decoded to the byte they spell |
| `Escape.UnescapesOther` | daemon/escape.c:90-112 | Every other byte stands for itself |
| `Escape.UnescapeSimple` | daemon/escape.c:117-120 | Decodes a string in place, terminator included |
| `Escape.RoundTrip` | daemon/escape.c:33-115 | unescape(escape(s, ALL)) = s for every byte string |
| `Escape.XmlEscapingIsTransparent` | daemon/escape.c:33-115 | unescape(escape(s, XML_ATTR)) = unescape(s) for every byte string |
| `Escape.XmlRoundTripWhen` | daemon/escape.c:33-115 | The XML flag alone brings a string back exactly if it spells no percent triple itself |
| `Escape.EscapedLength` | daemon/escape.c:33-76 | The exact length of escaped text, at most three bytes for one |
| `Escape.EscapedIsClean` | daemon/escape.c:38-64 | Escaped text has no double quote, ampersand or less-than sign, which an attribute value must not have (AttValue in section 2.3 of W3C XML 1.0), with both flags no slash, apostrophe or greater-than sign either, and no new NUL |
| `Escape.PercentsBeginEscapes` | daemon/escape.c:38-72 | With both flags every percent sign in the result begins an escape |
| `Escape.EscapedFits` | daemon/save.c:112-131 | A buffer of three bytes for each holds the escaped text and its NUL exactly if some byte stands for itself |
| `Escape.Misfits` | daemon/save.c:112-131 | Text of slashes only does not fit such a buffer, nor does the empty text |
| `Escape.UnescapedLength` | daemon/escape.c:84-115 | Decoding never lengthens |
| `JackPath.WritePath` | daemon/cmd_save_studio.c:53-67 | Prints every component of the address, escaped and behind a slash, and a NUL |
| `JackPath.OneComponent` | daemon/cmd_save_studio.c:53-67 | A component more is its bytes and a NUL in the address, a slash and its escape in the path |
| `JackPath.ReadPath` | daemon/cmd_load_studio.c:703-733 | Fills the address buffer, which is as large as the path, with the decoded components and the double NUL; for the empty path, and only for it, reading would begin behind the string |
| `JackPath.OnePart` | daemon/cmd_load_studio.c:703-733 | Of any path, each stretch up to a slash or the end gives its decoding and a NUL |
| `JackPath.AddressRoundTrip` | daemon/cmd_load_studio.c:703-733 | Parsing a printed address gives the same address |
| `JackPath.PathFits` | daemon/cmd_save_studio.c:53-67 | The printed path of an address takes less than three bytes for each of its bytes |
| `JackPath.DecodedFits` | daemon/cmd_load_studio.c:703-733 | The parsed address fits into a buffer the size of the path, for any path |
| `Rotate.Rotate` | common/dirhelpers.c:323-406 | On success dst is the old src, backup 1 the old dst and each other backup the one below it. It succeeds exactly if no call fails by itself, there is a src, and the backups are directories without a gap; whatever fails, nothing but the last backup can be lost |
| `Rotate.MoveUp` | common/dirhelpers.c:362-388 | One step of the countdown moves backup to the next higher name, or removes the last |
| `Rotate.RotationKeepsHistory` | common/dirhelpers.c:323-406 | If dst and its backups have no gap, they are afterwards the newest of the new tree and the old ones, in order, and have no gap again |
| `Rotate.RunKeepsHistory` | common/dirhelpers.c:323-406 | After any number of successful rotations they are the newest snapshots, in order |
| `Rotate.GapAfterRotation` | common/dirhelpers.c:391-396 | A rotation leaves a gap exactly if dst was missing below an existing backup |
| `CommandQueue.Queue.AddCommand` | daemon/cqueue.c:134-148 | Appends a pending command, or refuses while cancelled |
| `CommandQueue.Queue.Run` | daemon/cqueue.c:36-94 | Runs from the head until one waits, one fails or none is left. All before that one ran once, finished and are destroyed, it ran once, and those behind it did not run; after a failure everything is destroyed |
| `CommandQueue.Queue.RunHead` | daemon/cqueue.c:41-92 | One turn: the head runs once and finishes and goes, waits, or fails and takes the queue with it, as its result and state say |
| `CommandQueue.Queue.Cancel` | daemon/cqueue.c:96-132 | Leaves at most the waiting head, with the queue's flag set, and destroys the others from the back; the head's own flag is set exactly if it was before or the head was alone |
| `CommandQueue.Queue.Clear` | daemon/cqueue.c:150-171 | Destroys every command once, from the head on, and resets the flag |
| `CommandQueue.Queue.DropCommand` | daemon/cqueue.c:173-197 | Destroys the last command, which must be pending |
| `CommandLog.AlwaysOrderly` | daemon/cqueue.c:36-197 | At every moment the queue has no duplicates, nothing destroyed, and at most one command while cancelled |
| `CommandLog.DestroyedOnce` | daemon/cqueue.c:36-197 | No command is destroyed twice, and none runs once it is destroyed |
| `CommandLog.FailureIsFinal` | daemon/cqueue.c:36-94 | After a failure no command queued then ever runs again |
| `CommandLog.RunsInOrder` | daemon/cqueue.c:36-94 | A command runs only after every command ahead of it has finished |
| `SaveFilter.SaveNodes` | daemon/save.c:385-480 | Writes exactly the clients that are visible or have an app, in order, each with exactly its kept ports in order |
| `SaveFilter.SavePorts` | daemon/save.c:542-571 | Of a written client, in order, exactly its visible ports and its ports of stopped apps |
| `SaveFilter.SaveLinks` | daemon/save.c:669-692 | Writes, in order, exactly the visible connections and those hidden ones whose hidden ends belong to stopped apps; the writer's assertion about visible ones holds |
| `SaveFilter.FoundIffKept` | daemon/cmd_load_studio.c:491-505 | A loader's lookup by the uuid written for a port, link ports included, finds one exactly if the port was saved, and then that very port |
| `SaveFilter.EndKeptUnlessStranded` | daemon/save.c:684-692 | An end of a saved connection is a saved port exactly unless it lies in a hidden client that has no app |
| `SaveFilter.SavedGraphIsClosed` | daemon/cmd_load_studio.c:491-505 | Both lookups succeed for every saved connection iff no such end exists |
| `SaveFilter.LeftoversLost` | daemon/save.c:684-692 | A sound graph with such an end: a hidden connection between two ports of a stopped app in a hidden client without one is saved, and neither end is found again |
| `SaveFilter.OwnedPortsInOwnedClients` | daemon/save.c:43-69 | None exists if the ports of apps lie in clients that are visible or have an app |
| `RecentStore.Store.UseItem` | daemon/recent_store.c:235-286 | The item comes first, all others follow in their old order, cut to the limit; saved unless it was in front already |
| `RecentStore.Store.Reorder` | daemon/recent_store.c:268-283 | The in-place shift moves items back until it meets the hole |
| `RecentStore.Store.Load` | daemon/recent_store.c:129-154 | Loads the non-empty stretches between newlines, up to the first NUL and up to the limit |
| `RecentStore.TokensMean` | daemon/recent_store.c:129-154 | Of a file, what stands before the first newline is an item unless it is empty, and then come the items of the rest |
| `RecentStore.Store.Save` | daemon/recent_store.c:44-73 | Writes the items, a newline after each |
| `RecentStore.TextMeans` | daemon/recent_store.c:44-73 | The file is each item and a newline, in order |
| `RecentStore.Store.constructor` | daemon/recent_store.c:165-217 | A new store holds what the file says |
| `RecentStore.UsedKeepsDistinct` | daemon/recent_store.c:235-286 | A list without duplicates stays one, with the used item in front |
| `RecentStore.UsedTwice` | daemon/recent_store.c:244-254 | Using an item again changes nothing |
| `RecentStore.LoadSavedWhen` | daemon/recent_store.c:44-154 | Loading what was saved gives the same items exactly if none is empty or holds a newline or a NUL |
| `NewApp.NewName` | daemon/cmd_new_app.c:60-124 | The name is the base name if that is free, otherwise the base, a dash and the least free number from 2 on; no app has it |
| `NewApp.NameInCommand` | daemon/cmd_new_app.c:83-115 | The base name is the given name, or else of the command line what stands before its first blank and behind the last slash of that |
| `NewApp.DecimalSpells` | daemon/cmd_new_app.c:118-124 | A printed number is decimal digits that spell it, without a leading zero |
| `NewApp.MakeUnique` | daemon/cmd_new_app.c:118-124 | The loop ends after at most as many suffixes as there are apps |
| `NewApp.Pigeonhole` | daemon/cmd_new_app.c:118-124 | n taken candidates need n apps |
| `NewApp.CandidateOnce` | daemon/cmd_new_app.c:118-124 | Different suffixes give different names |
| `NewApp.DecimalOnce` | daemon/cmd_new_app.c:118-124 | Different numbers are printed differently |
| `NewApp.CutFirstWord` | daemon/cmd_new_app.c:94-105 | The base name ends with the first word of the command line |
| `NewApp.NameStart` | daemon/cmd_new_app.c:107-115 | The base name starts behind the last slash of that word |

## Left out

- Graphs.Graph: its list nodes are values in maps, keyed by id and by shared port, beside the lists as sequences of keys; updates in place are reassignments of those fields, and aliasing between nodes is not modelled. `Klist` proves the linked lists themselves, on the heap.
- Graphs.Graph.AddClient: requires that the client handle is not in the graph yet; the source does not check, and looks handles up as if they were unique.
- Graphs.Graph.AddPort: requires that the port is not in the graph yet; the source does not check, and would list it twice.
- Graphs.Graph.ShowConnection: requires two visible ports, as do the other operations that rely on such a condition without checking it (moving a visible port only to a visible client, hiding a client only without visible ports, adjusting only hidden ports).
- Graphs.Graph.TryConnectHiddenConnections: the connect handler answers yes or no and does not change the graph while it is asked.
- Graphs.Graph.Clear: the port callback is the one of a room, which takes the port out of the JACK graph, or none.
- Supervisor.AppSupervisor.RemoveApp: not the removal of an app that a save still waits for; the source has no check and would be called back for a freed app.
- Supervisor.AppSupervisor.Clear: not while a save is pending; the source has no check, and the answers to come would fail its assertion that there is a temporary directory.
- Supervisor.AppSupervisor.Add: `set_app_properties` can change the name, the terminal flag, the level and the commandline of a stopped app, and does not ask for a directory when the level becomes jack session. It is not modelled, and that every jack session app that is kept has a directory rests on its absence.
- Supervisor.AppSupervisor.Autorun: requires that no flagged app is running, which the source asserts in the start; `AppRuns.AutorunAsserts` says when that holds.
- Supervisor.AppSupervisor.Save: the save callback does not call back into the supervisor, replies arrive after the asking loop, and allocation failures count as answers without a commandline.
- Supervisor.AppSupervisor.StopApp: each app records what it was sent, but which process or group gets it, first-born children, LASH names and saves, and the D-Bus signals of the supervisor are not modelled; its version is.
- Loader.Child: one stream; a child has two of these with the same code. A line that looks like a repeat message of the log is a different entry here.
- NewApp.NewName: fewer apps than the `unsigned int` suffix can count.
- RecentStore.Store.Save: opening and writing the file succeed.
- JackPath.WritePath: addresses are non-empty lists of non-empty components, as JACK has them.
- Escape.EscapeTo: source and destination are different buffers, as at every call.
- CommandQueue.Queue.Run: a command does not add or cancel commands while it runs.
- SaveFilter.SaveLinks: the XML text and dictionaries; the writer's failures. A port whose app the supervisor does not know counts as not worth saving, after the assertion that says so.
- Integer widths other than the repeat counter and the name suffix: ids, versions and reference counts do not wrap.
- D-Bus message building, XML parsing, real processes, signals and files, allocation failure.
- Room unloading, stopping the studio, the virtualizer and `studio.c`: what they add depends on code that is not part of this model.
- `client.c`, `dict.c`, `conf.c`, `appdb.c` and the hash and RCU lists of `klist.h`: only easy members, or unused.
- Disconnect requests and `ladish_disconnect_visible_connections`: the same loop as for connecting, without a further property.
