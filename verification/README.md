# Verified model of Gear MCP Server

Gear MCP Server is a Godot editor extension that answers the Model Context Protocol over TCP. It comes with a
copy of godot-cpp, the C++ bindings of the engine. This project models the parts of both that are hardest to get
right and proves what they guarantee. Each module follows one component of the program:

- `TcpFraming`, `JsonText`, `Unescaping`: the incremental framer that cuts JSON objects out of a byte stream, and the
  escaping of strings. The main result is that the way TCP chops a stream cannot be observed.
- `MainThreadQueue`, `MainThreadDispatch`: the hand-off of tasks from TCP threads to the main thread, as a system of atomic steps in which any
  number of calls interleave with the drain loop. The statements are about every run.
- `ToolRegistry`, `McpMethods`, `McpServer`, `McpAnswers`, `ToolHistory`: the registry, the protocol methods and the message handler, and what
  replies, log, disabled tools and counters satisfy over whole runs of requests and panel actions.
- `ConfigValues`, `ConfigText`, `ConfigReader` and the other `Config` modules: the editor of `project.godot`. It edits text by
  substring search and reads it by lines; the proof relates both to a document of sections and entries.
- `RpcClient`, `RpcFailures`: the Content-Length codec of the client (Language Server Protocol 3.17, Base Protocol, "Header Part").
- `BuildProfile`, `ClassReach`, `SignatureTypes`: the closure of a build profile over the class tree, and the trimming of the API.
- `Matrix4`, `Elimination`, `GaussJordan`, `Projection`: inversion of 4x4 matrices with pivoting, in place.
- `Rotation`, `Orientation`, `RotationObjects`: quaternions and rotation matrices, in both directions.
- `SeparatingAxes`, `SeparatingAxisTheorem`, `MissedGaps`, `SegmentTest`: intersection of rectangles under affine maps, and of
  segments with boxes.
- `Colors`: hue, saturation and value.

A byte is a `char`, so texts are byte strings. Geometry and colour are over exact reals; a square root is any function
that is exact from zero on and need not be defined below. Randomness, clocks, foreign handlers and the JSON
library are parameters. Where a guarantee does not hold for all inputs, a lemma states the exact condition under which it
holds, and for most of them another lemma gives an input that breaks it.

## What the code does differently from what it says

- A build profile with both lists prints that the disabled list is ignored. For methods it is not
  (`BuildProfile.DisabledListStillCounts`).
- The comment at the end of the dispatch of protocol methods says that only `tools/call` takes the generic logging path; it is
  the only method that does not (`McpMethods.EntryOf`). A tool call that times out counts as a successful call and is logged as
  such, because the time-out text is returned as its result, unless its handler had already set an error
  (`McpMethods.CallEntry`).
- The client returns the part of a body that has arrived when it runs out of receives, without an error
  (`RpcClient.ReplyIs`, `RpcClient.BytewiseIsCut`). An empty body is an error.
- `remove_autoload` erases the newline on both sides of an entry, so that the line before runs on into the line after
  (`ConfigAutoload.RemovedText`, `ConfigRemoval.RemovesOnlyItself`, `ConfigUndo.AddThenRemove`). When the text of the key or of the
  header occurs in an earlier line, it erases text before the entry instead (`ConfigMisled.RemovesOnlyItselfExactly`,
  `ConfigMisled.LongerNameIsLost`, `ConfigElsewhere.ElsewhereIsRemoved`).
- `set_hsv` sends every negative hue that is not whole to the last sector, because the C remainder is negative
  (`Colors.AnyHue`, `Colors.QuarterBack`).
- A tool that is disabled in the panel can still be called, by its name with a NUL byte after it: the look-up reads the name as
  a C string, the check and the counter do not. By a name without a NUL byte it cannot, in any run
  (`McpServer.DisabledToolIsCalled`, `McpServer.EnabledToolsAreReached`).
- Text that does not parse is answered -32603 instead of -32700 when the words of the parser, which quote it, are not UTF-8, or
  when a number is out of range (`McpServer.RepliesInOrder`).
- Setting a value changes another key when the text of the header or of the key occurs earlier than its own line
  (`ConfigMeaning.SuffixIsClobbered`, `ConfigFindable.ReadsAsSetExactly`).
- A caller of the main-thread queue that times out leaves a task that writes into its frame (`MainThreadQueue.LateWrite`).

## Model

| member | source | states |
|---|---|---|
| TcpFraming.Connection.ExtractNextMessage | src/server/tcp_server.cpp:408-452 | cuts one message off the front of the buffer, or clears, shortens or keeps the buffer, exactly as the specification of a cut says |
| TcpFraming.ScanForEnd | src/server/tcp_server.cpp:428-443 | the byte scan finds the first position at which the braces balance outside of strings, and none when there is none |
| TcpFraming.NoShorterMessage | src/server/tcp_server.cpp:428-443 | no proper prefix of a message is a message: the cut is unambiguous |
| TcpFraming.Connection.DrainBuffer | src/server/tcp_server.cpp:460-469 | the drain loop terminates, hands over every message of the buffer in order and sends each non-empty response |
| TcpFraming.Connection.Receive | src/server/tcp_server.cpp:454-470 | one receive drains the old buffer followed by the new bytes |
| TcpFraming.Connection.ServeClient | src/server/tcp_server.cpp:454-470 | the whole receive loop computes the run over the chunks that it received, and sends every non-empty response to the messages handled, in order |
| TcpFraming.ExtractIsStable | src/server/tcp_server.cpp:408-452 | a message found in the buffer stays the first message whatever bytes arrive later |
| TcpFraming.DrainAppend | src/server/tcp_server.cpp:460-469 | draining before or after more bytes arrive gives the same messages and the same rest |
| TcpFraming.DrainPrefix | src/server/tcp_server.cpp:408-469 | draining any prefix of a stream hands over exactly the messages complete in it and keeps exactly the partial one |
| TcpFraming.ChunkingIsInvisible | src/server/tcp_server.cpp:408-470 | for every stream and every split into chunks, after each drain the handler has been called with exactly the messages whose last byte has arrived, in order |
| TcpFraming.ChunksDrainAsOne | src/server/tcp_server.cpp:454-470 | a run over chunks of a stream equals one drain of all its bytes |
| TcpFraming.CleanExactly | src/server/tcp_server.cpp:408-469 | draining before or after more bytes arrive makes no difference, whatever they are, if and only if the drain of the buffer meets no byte that can start no message |
| TcpFraming.GarbageIsChunkSensitive | src/server/tcp_server.cpp:419-427 | a concrete input for which the split does matter: bytes that start no message |
| TcpFraming.GarbageLineGoes | src/server/tcp_server.cpp:409-427 | bytes that start no message are dropped up to the end of their line, where the drain stops, or all of them when the line does not end |
| TcpFraming.BackslashHides | src/server/tcp_server.cpp:432-436 | a backslash and the byte after it change nothing for the scan, in a string or outside |
| JsonText.EscapeJson | src/godot_api/godot_api.cpp:509-532 | the loop computes the escaped text |
| JsonText.EscapedIsLiteralBody | src/godot_api/godot_api.cpp:509-532 | what it writes is the inside of a string literal (RFC 8259, section 7) for every byte string |
| JsonText.UnescapeEscape | src/godot_api/godot_api.cpp:1083-1097 | unescaping gives back the text, but spells control characters without a short escape as six characters |
| JsonText.EachByteWritten | src/godot_api/godot_api.cpp:509-532 | what each byte is written as (RFC 8259, section 7) |
| JsonText.EachPairRead | src/godot_api/godot_api.cpp:1083-1097 | what each pair is read as, and that every other byte stands for itself |
| JsonText.StringFromJson | src/godot_api/godot_api.cpp:1065-1098 | the string branch takes the trimmed text between two quotes and unescapes it |
| JsonText.StringRoundTrip | src/godot_api/godot_api.cpp:1023-1098 | a string comes back unchanged if and only if its only bytes below 0x20 are newline, carriage return and tab |
| JsonText.QuotedPath | src/server/tcp_server.cpp:428-443 | scanning a quoted escaped string returns the framer to the state it started in and closes nothing on the way |
| JsonText.ObjectIsMessage | src/server/tcp_server.cpp:428-443 | an object whose strings are such literals is one message for the framer |
| Unescaping.UnescapeLoop | src/godot_api/godot_api.cpp:1083-1097 | the index loop computes the unescaped text |
| Projection.TakeFromRow | godot-cpp/src/variant/projection.cpp:600-824 | subtracts a multiple of the pivot row from the entries from a column on, in place |
| Projection.Eliminate | godot-cpp/src/variant/projection.cpp:600-760 | the forward pass over the swapped row buffers does what the elimination specifies, at every pivot check |
| Projection.Projection.Invert | godot-cpp/src/variant/projection.cpp:600-824 | replaces the matrix by its inverse, or leaves it unchanged and reports failure |
| Projection.Projection.InverseOf | godot-cpp/src/variant/projection.cpp:594-598 | a copy, inverted; the original stays |
| Projection.Projection.Times | godot-cpp/src/variant/projection.cpp:836-850 | the triple loop computes the matrix product |
| Projection.Projection.Determinant | godot-cpp/src/variant/projection.cpp:42-55 | the expression of 24 products is the determinant by minors |
| GaussJordan.ForwardDecides | godot-cpp/src/variant/projection.cpp:600-760 | the forward pass completes exactly when the determinant is not zero; when it stops there is a vector that the matrix sends to zero |
| GaussJordan.BackSubstituteSolves | godot-cpp/src/variant/projection.cpp:762-824 | back substitution turns the left half into the identity and keeps left half equal to right half times the matrix |
| GaussJordan.InverseIsCorrect | godot-cpp/src/variant/projection.cpp:600-824 | a result is a two-sided inverse, for every matrix and every pivot path; there is one exactly when the determinant is not zero |
| GaussJordan.GivesUpOnlyWhenSingular | godot-cpp/src/variant/projection.cpp:655-760 | it gives up only on matrices that no matrix inverts from either side |
| GaussJordan.InverseIsUnique | godot-cpp/src/variant/projection.cpp:600-824 | the result is the only inverse, so pivoting does not change it |
| Elimination.SoundMinus | godot-cpp/src/variant/projection.cpp:669-690 | a row operation keeps the left half equal to the right half times the matrix |
| ConfigValues.ParseGodotValue | src/shared/config_parser.cpp:31-81 | the value parser, with the number parsers as parameters |
| ConfigValues.QuotedReadsBack | src/shared/config_parser.cpp:57-76 | a quoted text without backslashes reads back as that text |
| ConfigValues.NeedsQuotes | src/shared/config_parser.cpp:245-273 | says exactly which values must be quoted: the scan is compared with a description of the numbers it accepts |
| ConfigValues.FormatValue | src/shared/config_parser.cpp:275-289 | drops one layer of quotes and puts them on where the old or the new value needs them |
| ConfigValues.FormatStableExactly | src/shared/config_parser.cpp:275-289 | formatting twice equals formatting once exactly when what one layer of quotes held is not itself still wrapped |
| ConfigText.ProjectFile.SetProjectSetting | src/shared/config_parser.cpp:231-325 | the edit of the file text: append a section, replace a line or insert a line |
| ConfigText.ProjectFile.AddAutoload | src/shared/config_parser.cpp:355-357 | an autoload is a setting of its section, in quotes |
| ConfigText.ProjectFile.RemoveAutoload | src/shared/config_parser.cpp:359-390 | the erasure of the line and of the newline on either side |
| ConfigIdempotence.SetIsIdempotent | src/shared/config_parser.cpp:245-322 | on any non-empty text, setting the same value twice changes no byte the second time |
| ConfigReader.ParseIniFile | src/shared/config_parser.cpp:104-163 | the line loop reads what the line-by-line specification reads |
| ConfigLines.CommentLine | src/shared/config_parser.cpp:121-130 | blank lines and comments of both kinds are passed over |
| ConfigLines.HeaderLine | src/shared/config_parser.cpp:132-142 | a header opens its section up to the first closing bracket, and keeps what the section has |
| ConfigLines.OpenHeaderLine | src/shared/config_parser.cpp:132-142 | without a closing bracket it is passed over |
| ConfigLines.EntryLine | src/shared/config_parser.cpp:144-160 | an entry sets its key, less the blanks before the equals sign, in its section or on its own, and raises an exception where a key is in the way |
| ConfigLines.OtherLine | src/shared/config_parser.cpp:144-160 | any other line is passed over |
| ConfigDocument.ReadDocument | src/shared/config_parser.cpp:104-163 | reading a canonical file gives the meaning of its document |
| ConfigRefinement.SetRefines | src/shared/config_parser.cpp:231-325 | on a canonical file the edit of the text is the update of the document, in all three branches |
| ConfigMeaning.SetStaysCanonical | src/shared/config_parser.cpp:231-325 | the updated file is canonical again |
| ConfigMeaning.SetMeaning | src/shared/config_parser.cpp:231-325 | the meaning of the updated document is the old meaning with one entry put |
| ConfigMeaning.SetThenRead | src/shared/config_parser.cpp:214-325 | reading back gives the parse of the formatted value, and every other section and key reads as before |
| ConfigKinds.SetReadsByKind | src/shared/config_parser.cpp:31-81 | where there was no value in quotes: `true` and `false` come back as booleans, numerals and the other five bare words as what the number readers make of them, the empty text as itself, and any other text as itself with its escapes resolved |
| ConfigKinds.SetReadsAsText | src/shared/config_parser.cpp:275-289 | over a value in quotes any text, `true` included, comes back as text |
| ConfigKinds.WrittenExactly | src/shared/config_parser.cpp:245-289 | exactly which texts are written without quotes: seven words, numerals, the empty text and what is in quotes already |
| ConfigKinds.PairsRead | src/shared/config_parser.cpp:57-75 | the four escapes of a quoted value, and that every other byte stands for itself |
| ConfigLines.SectionAppended | src/shared/config_parser.cpp:291-296 | a setting whose section is nowhere in the text goes to its end, byte by byte |
| ConfigMeaning.SetWithNewline | src/shared/config_parser.cpp:291-322 | a missing newline at the end of the file makes no other difference to the edit, unless the header is the last line |
| ConfigMeaning.ReadWithNewline | src/shared/config_parser.cpp:121-160 | nor to the reading |
| ConfigFindable.ReadsAsSetExactly | src/shared/config_parser.cpp:214-325 | on a non-empty canonical file, every value is read back as it was set with no other setting changed, if and only if no earlier line contains the header's text and no earlier line of the section the key's |
| ConfigFindable.MissedReads | src/shared/config_parser.cpp:104-163 | a value longer than the file, written after other text in a line or outside its section, is not read as the setting |
| ConfigMeaning.SuffixIsClobbered | src/shared/config_parser.cpp:303-314 | a concrete text on which the search for bare text changes another key |
| ConfigAutoload.AddThenList | src/shared/config_parser.cpp:331-357 | an added autoload is listed, less a leading star, with its path unescaped when it is written in quotes, and with whatever the bare path reads as when it is not |
| ConfigAutoload.AddThenListGiven | src/shared/config_parser.cpp:331-357 | an autoload written in quotes without escapes is listed as given, a singleton exactly when its path begins with a star |
| ConfigAutoload.RemovedText | src/shared/config_parser.cpp:359-390 | what removal leaves of a canonical file: the line before the entry runs on into the line after it |
| ConfigRemoval.RemovesOnlyItself | src/shared/config_parser.cpp:359-390 | in a canonical file in which the searches find the entry, removal takes away that entry and no other setting if and only if the line before it is blank, or the line after it sets nothing and spoils nothing when it runs on to the line before |
| ConfigRemoval.RemoveThenRead | src/shared/config_parser.cpp:359-390 | which holds with an empty line beside the entry, or nothing after it |
| ConfigRemoval.OtherKey | src/shared/config_parser.cpp:144-160 | a setting that runs on after other text is read under another key |
| ConfigMisled.RemovedMisled | src/shared/config_parser.cpp:359-390 | with the key's text in an earlier line of the section, the first such line loses its tail and its newline, and the entry stays where it is |
| ConfigMisled.RemovesOnlyItselfExactly | src/shared/config_parser.cpp:359-390 | in every canonical file whose autoload header is found, removal takes away that entry and no other setting if and only if the lines around it run together without harm, or, when the key's search is misled, the line hit comes right before the entry and the two make a note or set what that line set |
| ConfigMisled.LongerNameIsLost | src/shared/config_parser.cpp:365-387 | a concrete text, with room around the entry, on which removing an autoload loses another whose name ends like it and keeps the one to be removed |
| ConfigMisled.RemovesNothingExactly | src/shared/config_parser.cpp:359-376 | where the header is found, removal reports failure if and only if no line of the section contains the key's text |
| ConfigElsewhere.ElsewhereIsRemoved | src/shared/config_parser.cpp:365-387 | with the header's text in a line before the section, removal takes only text before the section, and the entry stays unless the key's text is in the last line before it |
| ConfigUndo.AddThenRemove | src/shared/config_parser.cpp:331-390 | removal undoes an addition if and only if the line after the header is one that the reader ignores, or there is none |
| ConfigUndo.EntryAfterHeaderIsLost | src/shared/config_parser.cpp:355-390 | a concrete text on which adding an autoload and removing it takes the entry after the header too |
| ConfigUndo.AddThenRemoveNewSection | src/shared/config_parser.cpp:331-390 | when the section was missing, no reading of any key and no list of autoloads shows the difference |
| MainThreadQueue.EveryRun | src/server/main_thread_queue.cpp:16-83 | every interleaving of any number of calls keeps the invariant of the hand-off |
| MainThreadQueue.OnePlace | src/server/main_thread_queue.cpp:33-66 | a submitted task is queued, running or over, exactly one of them, and was submitted once |
| MainThreadQueue.RunsInOrder | src/server/main_thread_queue.cpp:56-82 | the main thread starts tasks in the order of submission, runs each that it has started and not lost, and no task runs twice anywhere |
| MainThreadQueue.ReturnsOwnValue | src/server/main_thread_queue.cpp:20-54 | whatever a call returns without timing out is what its own task yielded in its one execution, queued or direct |
| MainThreadQueue.NoEarlyRead | src/server/main_thread_queue.cpp:44-53 | no caller reads its result before the main thread has stored it |
| MainThreadQueue.WritesReachWaiters | src/server/main_thread_queue.cpp:73-80 | the result and flag writes reach a frame that still waits if and only if its call has not timed out |
| MainThreadQueue.WakesWaiters | src/server/main_thread_queue.cpp:81-81 | the wake-up reaches a caller that is still there if and only if it has neither timed out nor returned |
| MainThreadQueue.LateWrite | src/server/main_thread_queue.cpp:44-80 | a concrete run in which a result is written for a caller that is gone |
| MainThreadQueue.LateWakeUp | src/server/main_thread_queue.cpp:77-81 | a concrete run, without timeouts, in which a caller is woken that has returned |
| MainThreadQueue.DrainWakesAll | src/server/main_thread_queue.cpp:56-83 | after an undisturbed drain in which nothing throws the queue is empty and every caller still waiting can leave with its own value |
| MainThreadDispatch.WayOfCall | src/server/main_thread_queue.cpp:16-42 | from the events of any run alone: a call is run by its own caller if and only if the dispatch flag was last set to false when it began, or had not been set; otherwise it goes by the queue |
| MainThreadDispatch.WhoRunsTheTask | src/server/main_thread_queue.cpp:20-42 | whatever happens after a call begins, it can be submitted if and only if the flag was up then, and can be run or can throw on its own thread if and only if it was not |
| MainThreadDispatch.DirectReturns | src/server/main_thread_queue.cpp:24-26 | a call that runs its own task returns what the task yielded |
| MainThreadQueue.ThrowEndsDrain | src/server/main_thread_queue.cpp:56-82 | the first task that throws ends the drain: those behind it stay queued in their order, and its caller is never told |
| MainThreadQueue.Queue.SetDispatchAvailable | src/server/main_thread_queue.cpp:16-18 | the step that changes the flag |
| MainThreadQueue.Queue.Begin | src/server/main_thread_queue.cpp:20-31 | the step that reads it and takes one way or the other |
| MainThreadQueue.Queue.PushTask | src/server/main_thread_queue.cpp:33-42 | the step that queues a task |
| MainThreadQueue.Queue.Leave | src/server/main_thread_queue.cpp:44-53 | the step that ends the wait |
| MainThreadQueue.Queue.PopTask | src/server/main_thread_queue.cpp:59-65 | the step that takes the oldest task |
| MainThreadQueue.Queue.RunTask | src/server/main_thread_queue.cpp:67-71 | the step that executes it |
| MainThreadQueue.Queue.Signal | src/server/main_thread_queue.cpp:73-81 | the steps that store the result, raise the flag and wake the caller |
| MainThreadQueue.Queue.ProcessPending | src/server/main_thread_queue.cpp:56-83 | the drain loop is the specified sequence of steps, and empties the queue unless a task throws |
| Rotation.TurnsByConjugation | godot-cpp/src/variant/basis.cpp:846-856 | the matrix of a unit quaternion sends a vector v to q v q* |
| Rotation.RotationOfProduct | godot-cpp/src/variant/quaternion.cpp:51-65 | the matrix of a product is the product of the matrices, for all quaternions but zero |
| Rotation.RotationIsRotation | godot-cpp/src/variant/basis.cpp:846-856 | every such matrix is orthonormal with determinant one |
| Rotation.LengthOfProduct | godot-cpp/src/variant/quaternion.cpp:51-65 | squared length is multiplicative |
| Rotation.Associative | godot-cpp/src/variant/quaternion.cpp:51-65 | multiplication of quaternions is associative |
| Rotation.RotationOfScaled | godot-cpp/src/variant/basis.cpp:846-856 | the matrix does not depend on the length of the quaternion |
| Orientation.RadicandIsPositive | godot-cpp/src/variant/basis.cpp:732-766 | whatever the matrix, no branch takes the square root of less than one, so none divides by zero |
| Orientation.ReadsBack | godot-cpp/src/variant/basis.cpp:732-766 | for every unit quaternion the quaternion read from its matrix is it or its negative, in all four branches |
| Orientation.ReadsBackDirection | godot-cpp/src/variant/basis.cpp:732-766 | a quaternion of any other length but zero is read back scaled to length one |
| Orientation.WritesBack | godot-cpp/src/variant/basis.cpp:732-766 | the other way round: every rotation matrix is the matrix of the unit quaternion read from it |
| Orientation.SameRotation | godot-cpp/src/variant/basis.cpp:846-856 | two unit quaternions have one matrix if and only if they are equal or opposite |
| RotationObjects.Quaternion.MultiplyBy | godot-cpp/src/variant/quaternion.cpp:51-59 | the product in place, also when a quaternion is multiplied by itself |
| RotationObjects.Quaternion.Times | godot-cpp/src/variant/quaternion.cpp:61-65 | the product as a new quaternion |
| RotationObjects.Quaternion.Inverse | godot-cpp/src/variant/quaternion.cpp:91-96 | the conjugate, which on unit quaternions is the inverse on both sides |
| RotationObjects.Basis.SetQuaternion | godot-cpp/src/variant/basis.cpp:846-856 | stores the matrix of the quaternion |
| RotationObjects.Basis.GetQuaternion | godot-cpp/src/variant/basis.cpp:732-766 | fills the four temporaries by computed indices and returns the quaternion of the matrix |
| SeparatingAxes.IntersectsTransformed | godot-cpp/src/variant/rect2.cpp:112-285 | false only if the image leaves the interior of the base rectangle free, whatever the rectangles and the map; and exactly when one of the six tests separates all their points |
| SeparatingAxes.SeparatedIsDisjoint | godot-cpp/src/variant/rect2.cpp:112-285 | separation along any of the directions leaves no common point in the interior |
| SeparatingAxes.Spread | godot-cpp/src/variant/rect2.cpp:208-221 | the running extrema are the extreme components of the four points |
| SeparatingAxes.ClearOfSides | godot-cpp/src/variant/rect2.cpp:132-196 | the four chains of jumps compare the whole image with the sides of the base rectangle |
| SeparatingAxes.ClearAlong | godot-cpp/src/variant/rect2.cpp:207-245 | the comparison of the extrema decides whether the rectangles lie apart along a direction |
| MissedGaps.MissesNothingExactly | godot-cpp/src/variant/rect2.cpp:112-285 | for a given map a true answer is right for all rectangles if and only if the map keeps right angles, or sends every rectangle to an upright segment, or to a level one |
| MissedGaps.SlantedEdgeMisses | godot-cpp/src/variant/rect2.cpp:198-284 | beside a slanted edge of any other image lies a point that none of the six tests tells from it |
| SeparatingAxes.SkewedGapIsMissed | godot-cpp/src/variant/rect2.cpp:247-284 | a concrete skewing map for which the answer is true although there is a gap |
| SeparatingAxisTheorem.NothingIsMissed | godot-cpp/src/variant/rect2.cpp:112-285 | for every map that keeps right angles, such as a rotation, whatever none of the tests separates has a point in common: a true answer is right |
| SeparatingAxisTheorem.QuadrantGap | godot-cpp/src/variant/rect2.cpp:198-284 | an image at right angles that passes a corner of the base rectangle is separated from it along one of its own sides |
| SegmentTest.IntersectsSegment | godot-cpp/src/variant/aabb.cpp:190-253 | true if and only if some point of the segment is in the closed box, for boxes of any size; the time, the point and the normal are those of the first contact |
| SegmentTest.InSlabWhen | godot-cpp/src/variant/aabb.cpp:202-229 | the two quotients of a slab are the times of entering and leaving it, and no divisor is zero |
| SegmentTest.NormalFacesSegment | godot-cpp/src/variant/aabb.cpp:231-252 | the normal belongs to the face through which the segment enters, against its direction, and the segment was outside before; it is zero when the segment starts inside |
| SegmentTest.NegativeIsEmpty | godot-cpp/src/variant/aabb.cpp:191-195 | with a negative extent there is nothing to hit |
| SegmentTest.PlaneAgreesWithSpace | godot-cpp/src/variant/rect2.cpp:47-110 | the test in the plane agrees with the test in space inside a slab of the third axis |
| RpcClient.Socket.SendAll | src/shared/json_rpc_client.cpp:83-91 | succeeds if and only if some first sends all take bytes and between them take everything, and then puts every byte on the wire, once and in order; on failure the bytes of the sends before the failing one |
| RpcClient.Receiver.RecvSome | src/shared/json_rpc_client.cpp:93-99 | appends one piece and compares the size of the buffer |
| RpcClient.Receiver.ReceiveHeaders | src/shared/json_rpc_client.cpp:222-237 | the header loop with its safety counter |
| RpcClient.Receiver.ReceiveBody | src/shared/json_rpc_client.cpp:254-261 | the body loop, which goes on with the same counter |
| RpcClient.Receiver.Receive | src/shared/json_rpc_client.cpp:222-262 | the receiving half of a call, with each of its errors |
| RpcClient.Call | src/shared/json_rpc_client.cpp:201-269 | sends one frame and reads one reply; it fails to send exactly when no first sends that all take bytes take the whole frame, however little each takes |
| RpcClient.ReplyIs | src/shared/json_rpc_client.cpp:222-262 | what a call gives for any fragmentation of a reply: which error, or how much of the body after five hundred receives |
| RpcClient.ReplyIsBody | src/shared/json_rpc_client.cpp:222-262 | the body is whole if and only if the first piece has four bytes and headers and body end in time |
| RpcClient.BytewiseIsCut | src/shared/json_rpc_client.cpp:213-262 | every body of more than 499 bytes that comes byte by byte, after its headers in one piece, is cut to 499 bytes without an error |
| RpcClient.LinesAreHeaders | src/shared/json_rpc_client.cpp:231-240 | header lines end at the first blank line |
| RpcClient.ContentLengthIs | src/shared/json_rpc_client.cpp:239-251 | the length is found and read among other headers, in both spellings, with any indentation |
| RpcClient.AtoiOfDecimal | src/shared/json_rpc_client.cpp:215-251 | the length printed by one side is the number read by the other, in the range of an int |
| RpcClient.RoundTrip | src/shared/json_rpc_client.cpp:213-262 | framing and reading back is the identity on non-empty bodies if and only if the pieces are not too many and the first is not too short |
| RpcClient.FrameIsFramed | src/shared/json_rpc_client.cpp:213-216 | the frames that the client sends are of the form that it reads |
| RpcFailures.SmallFrame | src/shared/json_rpc_client.cpp:213-251 | a concrete frame, byte by byte, and concrete lengths as they are found in both spellings |
| RpcFailures.NoBlankLine | src/shared/json_rpc_client.cpp:222-237 | when no blank line comes, the error is the missing terminator once fifty pieces have come and a time-out before, whatever the pieces |
| RpcFailures.BadHeaders | src/shared/json_rpc_client.cpp:239-252 | headers without a length, and lengths that are not positive, each give their own error |
| RpcFailures.CutBody | src/shared/json_rpc_client.cpp:254-262 | a connection that ends before the body does gives a time-out, unless five hundred pieces have come, and then the part of the body among them |
| BuildProfile.BuildTree | godot-cpp/build_profile.py:12-23 | the loop over the API builds the maps of parents and of children |
| BuildProfile.CloseUpward | godot-cpp/build_profile.py:38-45 | the worklist ends on any graph and computes the least set that holds its seeds and their parents |
| BuildProfile.CloseDownward | godot-cpp/build_profile.py:47-54 | likewise for children |
| BuildProfile.ParseBuildProfile | godot-cpp/build_profile.py:5-64 | both lists of a profile, closed |
| BuildProfile.IsClassIncluded | godot-cpp/build_profile.py:101-112 | the rule for classes |
| BuildProfile.IsMethodIncluded | godot-cpp/build_profile.py:115-139 | the rule for methods, over every recognised class of the signature |
| BuildProfile.GenerateTrimmedApi | godot-cpp/build_profile.py:67-98 | the API with the classes and methods that stay, in their order |
| BuildProfile.ClassesInOrder | godot-cpp/build_profile.py:82-96 | the classes that stay are in the order of the original |
| BuildProfile.MethodsInOrder | godot-cpp/build_profile.py:86-92 | so are the methods of each |
| BuildProfile.ParentsStay | godot-cpp/build_profile.py:67-112 | a kept class whose parent is in the API keeps it: always without an enabled list, and with one when going up from a class comes to its parent |
| BuildProfile.ParentsAlwaysStay | godot-cpp/build_profile.py:5-112 | no profile costs a kept class its parent, if and only if going up from each class of the API comes to the parent it names |
| BuildProfile.UniqueNamesLeadUp | godot-cpp/build_profile.py:15-45 | which it does when no two classes have the same name |
| ClassReach.ClassesThatStay | godot-cpp/build_profile.py:12-54 | by chains of inheritance: with an enabled list the classes that stay are those on it, the seven always needed and all above them; without one, all but those on the disabled list and all below them |
| ClassReach.IncludedAre | godot-cpp/build_profile.py:25-45 | the enabled list holds what is on or above an enabled class or one of the seven |
| ClassReach.ExcludedAre | godot-cpp/build_profile.py:47-54 | the disabled list holds what is on or below a disabled class |
| BuildProfile.MethodsStay | godot-cpp/build_profile.py:84-139 | a kept class keeps exactly those of its methods whose classes all stay, and no method that stays mentions a class that goes |
| SignatureTypes.FormNames | godot-cpp/build_profile.py:142-167 | a class named bare, constant, as a pointer, as an array element or as the owner of an enumeration or bitfield is recognised as that class, an enumeration of no class as GlobalConstants, and nothing else is |
| SignatureTypes.SignatureStays | godot-cpp/build_profile.py:115-139 | a method stays exactly when each list keeps every recognised class that its result or an argument names in one of these ways |
| SignatureTypes.TrimmedSignatures | godot-cpp/build_profile.py:84-139 | the methods of a class of the trimmed API are those of the original of which that is true |
| BuildProfile.EmptyLists | godot-cpp/build_profile.py:25-55 | the closed lists are empty exactly when the profile leaves them empty |
| BuildProfile.DisabledListStillCounts | godot-cpp/build_profile.py:56-139 | when both lists are given, the disabled one changes the trimmed API if and only if a class that stays has a method whose classes are all enabled and one of them disabled |
| BuildProfile.EnabledAndDisabled | godot-cpp/build_profile.py:56-139 | a concrete API and profile: a class on both lists stays and loses the method that returns it |
| BuildProfile.HomonymLosesParent | godot-cpp/build_profile.py:15-45 | a concrete API with two classes of one name whose trimmed form keeps a class without its parent |
| ToolRegistry.EnabledCountIsExact | src/server/tool_registry.cpp:48-51 | the difference of the sizes is the number of enabled tools |
| ToolRegistry.SumCounted | src/server/tool_registry.cpp:85-95 | one more call of one tool is one more in the total |
| ToolRegistry.Registry.RegisterTool | src/server/tool_registry.cpp:7-20 | a tool, its texts cut at their first NUL byte, replaces the one of its name |
| ToolRegistry.Registry.GetTool | src/server/tool_registry.cpp:22-31 | looks up the name up to its first NUL byte |
| ToolRegistry.RegisteredToolIsFound | src/server/tool_registry.cpp:7-31 | a registered tool is found under every name that is cut to its own, and every other name as before |
| ToolRegistry.Registry.SetToolEnabled | src/server/tool_registry.cpp:53-62 | enables or disables a registered tool, and refuses others |
| ToolRegistry.Registry.EnabledCount | src/server/tool_registry.cpp:48-51 | counts the enabled tools |
| ToolRegistry.Registry.DisableAllTools | src/server/tool_registry.cpp:76-83 | disables every tool and counts those that were enabled |
| ToolRegistry.Registry.EnableAllTools | src/server/tool_registry.cpp:69-74 | enables every tool and counts those that were disabled |
| ToolRegistry.Registry.IncrementCallCount | src/server/tool_registry.cpp:85-88 | counts a call |
| ToolRegistry.Registry.TotalCallCount | src/server/tool_registry.cpp:90-95 | the loop sums all counters |
| McpMethods.Methods.Log | src/server/mcp_methods.cpp:36-53 | the bounded buffer drops its oldest entry |
| McpMethods.Methods.GetRecentLogs | src/server/mcp_methods.cpp:55-64 | the last entries, oldest first |
| McpMethods.Methods.RegisterResource | src/server/mcp_methods.cpp:118-127 | a resource replaces the one of its address, or comes last |
| McpMethods.Methods.RegisterPrompt | src/server/mcp_methods.cpp:129-142 | likewise for prompts |
| McpMethods.Methods.LookUpResource | src/server/mcp_methods.cpp:399-425 | an exact address first, and else the first template that fits |
| McpMethods.RegisteredIsFound | src/server/mcp_methods.cpp:118-127 | after a registration the look-up gives it, and every other address as before |
| McpMethods.RegisteredPromptIsFound | src/server/mcp_methods.cpp:129-142 | likewise for prompts |
| McpMethods.ResourceIsPlaced | src/server/mcp_methods.cpp:118-127 | a resource takes the place of the first of its address, or comes last |
| McpMethods.PromptIsPlaced | src/server/mcp_methods.cpp:129-142 | likewise for prompts |
| McpMethods.Methods.HandleToolsCall | src/server/mcp_methods.cpp:262-358 | the answer, the log entry and the counter of a tool call on every path, the tool being that of the name up to its first NUL byte |
| McpMethods.Methods.HandleResourcesRead | src/server/mcp_methods.cpp:387-443 | the answer to a request for a resource |
| McpMethods.Methods.HandlePromptsGet | src/server/mcp_methods.cpp:478-528 | the answer to a request for a prompt |
| McpMethods.Methods.Handle | src/server/mcp_methods.cpp:80-116 | the dispatch over the eight methods |
| McpServer.Server.HandleMessage | src/server/mcp_server.cpp:54-115 | the reply to a text and the state after it |
| McpServer.RepliesInOrder | src/server/mcp_server.cpp:54-115 | over every run there is one reply for each text that is neither blank nor a notification (JSON-RPC 2.0, section 4.1), in order and under its id (section 5) unless an exception was raised; the parse error answers exactly the texts that the parser calls malformed in words that can be printed |
| McpServer.EachRequest | src/server/mcp_methods.cpp:80-116 | what each request of a run is answered, that it leaves one log entry unless unknown or an exception was raised, and that a disabled tool asked for by its own name answers like a missing method and is not called |
| McpAnswers.EachToolCall | src/server/mcp_methods.cpp:289-358 | over every run a call of an enabled tool is answered with the error as an error if there is one and with the result if not, for a handler that returned, a time-out with or without a late error and a missing handler on either thread, and leaves its entry and one count; an exception leaves nothing |
| McpAnswers.EachRefusedCall | src/server/mcp_methods.cpp:262-288 | over every run the answer to a call by no name, an unknown one or that of a disabled tool, and the level, status and message of its log entry |
| McpAnswers.EachMalformedCall | src/server/mcp_methods.cpp:262-270 | a name that is no text raises an exception |
| McpAnswers.EachList | src/server/mcp_methods.cpp:228-475 | over every run the three lists show all that is registered, in its order |
| McpAnswers.EachGreeting | src/server/mcp_methods.cpp:180-222 | what ping and initialize are answered |
| McpAnswers.EachResourceRead | src/server/mcp_methods.cpp:387-443 | over every run what a request for a resource is answered: the first of the address, or else the first template that fits, by its handler |
| McpAnswers.EachPromptRead | src/server/mcp_methods.cpp:478-528 | likewise for prompts |
| McpAnswers.EachMalformedRead | src/server/mcp_methods.cpp:387-490 | an address or a name that is no text raises an exception |
| McpAnswers.EachOtherText | src/server/mcp_server.cpp:75-92 | what is no object with a method is refused under its id, a notification is not answered, and neither changes anything |
| McpAnswers.EachUnparsedText | src/server/mcp_server.cpp:57-73 | what texts that do not parse and blank ones are answered, and that they change nothing |
| McpServer.LogsAreLast | src/server/mcp_methods.cpp:36-74 | over every run the buffer holds the last five hundred entries since it was last cleared |
| McpServer.DisabledAreRegistered | src/server/tool_registry.cpp:7-83 | over every run only registered tools are disabled, so that the enabled count is exact, and no tool name holds a NUL byte |
| ToolHistory.RegisteredExactly | src/server/tool_registry.cpp:7-20 | over every run a tool is registered exactly when some action registered it |
| ToolHistory.LastRegistrationCounts | src/server/tool_registry.cpp:7-20 | over every run a tool is as its last registration has it, with the defaults for what that leaves out |
| ToolHistory.DisabledExactly | src/server/tool_registry.cpp:53-83 | over every run a tool is disabled if and only if the last panel action that concerned it, while it was registered, disabled it |
| McpServer.CountsAreCalls | src/server/mcp_methods.cpp:305-332 | over every run each counter is the number of calls under its name that came back, and the total is the number of all of them |
| McpServer.CountsAreRuns | src/server/mcp_methods.cpp:274-332 | over every run the counter of a tool is the number of times it was run if and only if no call used its name with a NUL byte after it, and less otherwise |
| McpServer.EnabledToolsAreReached | src/server/mcp_methods.cpp:274-288 | the names by which no run and no request reaches a tool that is disabled in the panel are exactly those without a NUL byte |
| McpServer.DisabledToolIsCalled | src/server/mcp_methods.cpp:274-332 | a concrete run in which a tool disabled in the panel is called, and not counted |
| Colors.Color.SetHsv | godot-cpp/src/variant/color.cpp:183-242 | sets the colour of a hue, a saturation and a value |
| Colors.Color.GetH | godot-cpp/src/variant/color.cpp:144-170 | reads the hue |
| Colors.Color.GetS | godot-cpp/src/variant/color.cpp:172-181 | reads the saturation |
| Colors.RoundTrip | godot-cpp/src/variant/color.cpp:144-242 | for every hue in [0, 1), saturation in (0, 1] and positive value, all three are read back, in all sectors and on their borders |
| Colors.AnyHue | godot-cpp/src/variant/color.cpp:190-241 | for any hue, saturation and value come back; the hue does, up to whole turns, if and only if it is not negative, or is whole, or lies in the last sixth |
| Colors.QuarterBack | godot-cpp/src/variant/color.cpp:190-241 | a concrete negative hue that is read back as another one |
| Colors.SetsBack | godot-cpp/src/variant/color.cpp:144-242 | setting what was read gives the colour again, for every colour without negative components |
| Colors.Greys | godot-cpp/src/variant/color.cpp:188-192 | without saturation the hue is lost, and nothing else |

## Left out

- Sockets, threads and mutexes as objects of the operating system: receives and sends are lists of pieces, threads are steps.
- Text to JSON and back: a parsed value is a datatype, printing a response is an event that may fail, and error texts of the
  library are parameters. The order of object members is not modelled, nor is the text of the -32603 reply.
- File access: the text of a file is a string, and a write always succeeds.
- `get_project_setting` with an empty section, export presets and the main-scene helpers of the configuration module: they only
  look up in the map that is modelled.
- Numbers in configuration values: the two number parsers are parameters that never accept a text that begins with a quote.
- The depth counter of the framer and the call counters are unbounded integers.
- The Windows copy of the framer (src/server/tcp_server.cpp:307-375), which is the same code.
- Reads of the registry by one request happen at once, not between the actions of other threads; a missing registry, the time
  stamps and durations of log entries, and the arguments that prompt handlers receive are left out.
- MainThreadQueue.Queue.ProcessPending: is the loop without steps of other threads in between; interleavings are covered by the
  step system, whose steps the other methods of the class take. A task carries the number of its call, not pointers.
- Rounding, infinities, NaN and the epsilon comparisons of the math checks: all geometry is exact.
- RotationObjects.Basis.SetQuaternion: requires a quaternion other than zero, for which the original divides by zero.
- SegmentTest.IntersectsSegment: the loops of `Rect2` and `AABB` are one method over vectors of any dimension.
- ConfigReader.ParseIniFile: the check of the file by INIReader, which can return an empty object, is not modelled.
- ConfigElsewhere.ElsewhereIsRemoved: when the key's text is in the very last line before the section, so that the section's
  header can run on after another line, it only says that nothing is taken from the header on.
- SignatureTypes.SignatureStays: is for APIs whose names are identifiers, without the dots, colons, stars and blanks of type texts.
- ClassReach.ClassesThatStay: is for class names that are distinct; for others the closed sets of `BuildProfile.ParseBuildProfile`
  are what is stated.
- Projection.Eliminate: its loops over columns are one method for a row, called for each row and each pivot.
- BuildProfile.GenerateTrimmedApi: returns a new API where the original overwrites the method lists of the parsed one; classes
  have no members besides those that trimming looks at.
- Euler angles, slerp, axis-angle conversion, scaling and the other operations of the math types; the binding generator, the
  proxy, the editor panel and the calls into the engine.
