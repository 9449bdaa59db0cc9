# Socket chat, echo and file-transfer protocols, verified

A Dafny 4.11 model of the application protocols that run over the sockets of this repository: chat
servers that share a table of clients, two file transfers over TCP, one over UDP, a turn-taking chat and
the echo service.  Verify everything with `dafny verify dfyconfig.toml`.

## How it is built

Every protocol has two parts that share their definitions.

* **A transition system.**  `Apply` performs one event on a `State`, `Run` a whole schedule of events,
  and an event that is not possible changes nothing.  The events are chosen by the environment: which
  thread moves, how many bytes a `send` or `recv` moves, which datagram is delivered or lost, when a
  timeout fires, when a child exits.  Theorems are about `Run(es)` for every schedule `es`.
* **The code.**  The programs' loops are methods over arrays and fields, each proved equal to a function
  of its inputs and of the state before.  For the client tables, the registry and the reaping that function is
  the one the transition system is made of.  For the loops that move bytes it is a function of the whole
  stream, and lemmas say that every run of the transition system agrees with it: `FramedTransfer.ServerIsParser`,
  `UdpFile.RunPosts` and `UdpFile.RunAccepts`, `TurnTaking.RunConverses`.  In the echo pipeline both forms
  are proved, each by itself, to give the bytes back.  `Network.Socket` is a connection on which each call may
  move any part of what it is asked to move, or fail.

| file | what it models |
|---|---|
| `Common.dfy`, `Kernel.dfy`, `SlotTable.dfy`, `Mail.dfy`, `Network.dfy` | shared vocabulary; descriptors and their reuse; the ten-slot table; who has been sent what; a TCP socket |
| `ArbitraryChat.dfy` | threaded chat server, mutex-protected slot table |
| `BroadcastChat.dfy` | threaded echo server with a console that speaks to all, dense client list |
| `SelectChat.dfy` | single-threaded chat server on `select` |
| `UdpRegistry.dfy` | UDP chat server that learns its clients |
| `UdpFile.dfy` | UDP file transfer with unnumbered acknowledgements |
| `FramedTransfer.dfy` | TCP file transfer with a length-prefixed header |
| `FileHandshake.dfy` | TCP file transfer with consent of both users |
| `TurnTaking.dfy` | turn-taking chat, client-first and server-first |
| `ReapAccounting.dfy` | fork and reap accounting of the forking echo server |
| `EchoPipeline.dfy` | echo client against echo server |

Connections have an identity (their place in the sequence of all connections accepted) that is distinct
from their descriptor number, which may be given out again after `close`.  Fields described as history
(`begun`, `log`, `recvs`, `written`, `said`, ...) record what happened and never decide a branch; lemmas tie
them to the events of the schedule, so that a theorem about them is one about what clients, users and network
did.  A `Socket` keeps a history too: whether a call has failed, whether a send fell short and what each
receive asked for.  A loop reports an error only if one of these, or an early end of the stream, gives it a
reason.

### What is assumed of the world

* TCP is a reliable, in-order byte stream (section 2.2 of RFC 9293).  In the UDP transfer a datagram may
  be dropped, delayed and reordered, but not duplicated, and there is no third sender (RFC 768).
* `accept` returns a positive descriptor that is not open; socket set-up succeeds.
* In the chat servers and the echo programs one `send` hands over its whole message or fails; where the
  code ignores the failure, so does the model, and the recipient misses that message.  Short sends are
  modelled where the code loops over them.
* A critical section that only scans and updates the client table is one event, because the table is
  touched under its mutex only.  A broadcast is one event per slot.
* Messages are texts without NUL that leave room for a terminator.  Where `strcmp` matters, in the
  handshake, buffers are bytes and the comparison is that of C strings.
* `DieWithError` is a state in which nothing happens any more (or, in the methods, an early return).

### What turned out not to hold

The code is modelled as it is; where it falls short of what its name or its documentation promises, the
exact boundary is proved.

* **An acknowledgement is not always for the packet it is credited to.**  `MoreLearning/README.md` promises
  an "ACK after each packet"; a late one can be taken for a packet the client never had, exactly when the
  file is longer than one chunk (`UdpFile.MiscreditExactly`, by the schedule of `UdpFile.LateAckIsMiscredited`).
  Such a packet is lost for good (`UdpFile.LostForGood`).  Before the first failed wait every acknowledgement
  is genuine (`UdpFile.AckIsGenuine`), and a transfer without a failed wait is intact
  (`UdpFile.AllAckedMeansIntact`).
* **A file whose short last chunk reads "EOF" or "ERROR" loses that chunk**, and no other file does
  (`UdpFile.LosslessTransfer`, `UdpFile.AllAckedIsPossible`).
* **Server-first the turn-taking chat can deadlock**, exactly through an empty reply given while nothing
  is under way (`TurnTaking.ServerFirstDeadlocksExactly`).
* **A file that starts with a NUL byte can lose its beginning** in the handshake transfer, and no other
  file can (`FileHandshake.IntactExactly`).
* **Consent of both users does not make a transfer.**  The server opens the file exactly if one receive gives
  "OK\n" by itself, or with more of a file that starts with a NUL (`FileHandshake.OpensExactly`); under any
  other cut the client still finishes as if all were well (`FileHandshake.FinishedNotOpened`).
* **A name of length 0 or above 4096 ends the framed server**, and nothing else about the frame does
  (`FramedTransfer.QuietMeansDelivered`).

## Model

| member | source | states |
|---|---|---|
| Kernel.Resolve | Test_Code/tcp_chat_arbitrary_server.c:145-158 | a descriptor number names at most the open connection that holds it; when it names none, no open connection has it |
| Kernel.AcceptResolve | Test_Code/tcp_chat_arbitrary_server.c:51-59 | accepting under a free descriptor gives that number to the newcomer and renames nobody |
| Kernel.CloseResolve | Test_Code/tcp_chat_arbitrary_server.c:120 | close frees exactly the number of the connection closed |
| SlotTable.AddAt | Test_Code/tcp_chat_arbitrary_server.c:95-102 | a client gets into the table exactly when a slot is free, and nobody is displaced |
| SlotTable.DropAt | Test_Code/tcp_chat_arbitrary_server.c:111-118 | a remove takes out its own client and nobody else |
| SlotTable.AddThenDrop | Test_Code/tcp_chat_arbitrary_server.c:94-118 | a handler's remove undoes its add, also when the add found the table full |
| ArbitraryChat.ApplyKeepsAgreement | Test_Code/tcp_chat_arbitrary_server.c:78-122 | every step of every thread keeps table and descriptors in agreement: used slots are distinct, each names an open descriptor whose handler is between its add and its remove, the mutex is held exactly by a broadcasting thread |
| ArbitraryChat.RosterStable | Test_Code/tcp_chat_arbitrary_server.c:110-120 | as long as the table is unchanged its entries keep meaning the same connections, because removal comes before close |
| ArbitraryChat.ApplyKeepsHistory | Test_Code/tcp_chat_arbitrary_server.c:78-88 | every step keeps the delivery log a sequence of complete broadcasts in the order the mutex was taken, with at most the last one under way |
| ArbitraryChat.RunInvariant | Test_Code/tcp_chat_arbitrary_server.c:51-122 | both invariants over every interleaving of any number of handlers, send by send |
| ArbitraryChat.SendsReachMembers | Test_Code/tcp_chat_arbitrary_server.c:81-84 | no schedule sends on a closed or reused descriptor: the next slot of a broadcast names the same connection as when the mutex was taken, and that is still a member |
| ArbitraryChat.TableInterval | Test_Code/tcp_chat_arbitrary_server.c:94-118 | a connection is in the table exactly from its own add with a free slot to its own remove; a handler turned away never frees another's slot |
| ArbitraryChat.RosterIsTable | Test_Code/tcp_chat_arbitrary_server.c:79-82 | the recipients of a broadcast are fixed as those in the table when the mutex is taken |
| ArbitraryChat.InboxIsProjection | Test_Code/tcp_chat_arbitrary_server.c:78-122 | each connection's inbox is the one sequence of broadcasts, restricted to those begun while it was in the table, minus its own |
| ArbitraryChat.TotalOrder | Test_Code/tcp_chat_arbitrary_server.c:78-88 | any two connections agree on the order of all messages both have received |
| ArbitraryChat.ReceivedIsBegun | Test_Code/tcp_chat_arbitrary_server.c:104-108 | every broadcast carries what its client sent: the broadcasts begun for a client, in order, and the message its handler holds, if any, are exactly the messages that arrived from it |
| ArbitraryChat.ConnectionsAreAccepted | Test_Code/tcp_chat_arbitrary_server.c:51-59 | the connections are those accepted, under the descriptors they were given |
| ArbitraryChat.LeavingIsHangingUp | Test_Code/tcp_chat_arbitrary_server.c:104-111 | a handler is on its way out if and only if its client has hung up |
| ArbitraryChat.DeadExactly | Test_Code/tcp_chat_arbitrary_server.c:83-84 | the server has died if and only if a send to another client has failed |
| ArbitraryChat.StepsComeNearer | Test_Code/tcp_chat_arbitrary_server.c:90-122 | every step of a thread brings it nearer to its next receive or its end |
| ArbitraryChat.AtRestAllIsDone | Test_Code/tcp_chat_arbitrary_server.c:78-122 | the mutex never blocks for good: when no thread of a live server can take a step, handlers whose clients have hung up have closed and the others wait for theirs, everything that arrived has been broadcast and every broadcast delivered |
| ArbitraryChat.BlockIsBroadcast | Test_Code/tcp_chat_arbitrary_server.c:80-86 | a broadcast in the interleaved server is the loop run alone: its send calls, which compare descriptors, reach the connections in the table other than the sender |
| ArbitraryChat.ChatTable.Add | Test_Code/tcp_chat_arbitrary_server.c:95-102 | the scan puts the client into the first free slot, or nowhere |
| ArbitraryChat.ChatTable.Remove | Test_Code/tcp_chat_arbitrary_server.c:111-118 | the scan frees the first slot naming the client, or none |
| ArbitraryChat.ChatTable.Broadcast | Test_Code/tcp_chat_arbitrary_server.c:78-88 | the loop sends to every used slot but the sender's in slot order; if and only if a send fails it ends the server, after a proper part of that |
| ArbitraryChat.ChatTable.HandleTCPClient | Test_Code/tcp_chat_arbitrary_server.c:90-122 | a handler run alone sends each message it receives to all others and leaves the table as it found it |
| BroadcastChat.RunListed | Test_Code/tcp_chat_broadcast_server.c:24-38 | the list invariant over every interleaving of accept, add, console, echo, remove and close |
| BroadcastChat.ListIsArrivalOrder | Test_Code/tcp_chat_broadcast_server.c:24-38 | the list is the duplicate-free arrival-order sequence of admitted, still registered connections, within capacity |
| BroadcastChat.FdsWithout | Test_Code/tcp_chat_broadcast_server.c:31-36 | deleting by descriptor deletes the one connection it stands for |
| BroadcastChat.UnadmittedRemoveIsHarmless | Test_Code/tcp_chat_broadcast_server.c:71-72 | removing a connection that was never admitted changes nothing, because removal comes before close |
| BroadcastChat.ConsoleDelivers | Test_Code/tcp_chat_broadcast_server.c:47-52 | each console send goes to the connection whose turn it was when the line began, and if it fails to nobody |
| BroadcastChat.RosterFrozen | Test_Code/tcp_chat_broadcast_server.c:47-52 | while a line is being sent no event changes the list |
| BroadcastChat.RunMerging | Test_Code/tcp_chat_broadcast_server.c:41-74 | over every schedule each client's stream holds, of each source, exactly the blocks due so far, in order, but for console lines whose send failed |
| BroadcastChat.StreamIsMerge | Test_Code/tcp_chat_broadcast_server.c:41-74 | each client's stream is an order-preserving interleaving of what its handler echoed and, of the console lines begun while it was registered, those whose send went through; all of them if no send to it failed |
| BroadcastChat.NoFailureNoGap | Test_Code/tcp_chat_broadcast_server.c:49-50 | only a failing console send leaves a gap |
| BroadcastChat.ListInterval | Test_Code/tcp_chat_broadcast_server.c:24-38 | a connection is in the list exactly from its add, if that finds fewer than a hundred there, to its own remove |
| BroadcastChat.ListedIsOwed | Test_Code/tcp_chat_broadcast_server.c:47-52 | a connection in the list when a line begins is owed that line once it is out, after all it was owed before, and no other is |
| BroadcastChat.ConnectionsAreAsReported | Test_Code/tcp_chat_broadcast_server.c:57-73 | connections are those accepted; a handler has received what arrived from its client, and is on its way out if and only if the client has hung up |
| BroadcastChat.ConsoleIsAsTyped | Test_Code/tcp_chat_broadcast_server.c:43-51 | the lines sent are the non-empty lines typed; the server has died if and only if a call of a handler has failed |
| BroadcastChat.AtRestAllIsDone | Test_Code/tcp_chat_broadcast_server.c:41-74 | when nobody in a live server can take a step, handlers whose clients have hung up have closed and the others wait for theirs, everything received has been echoed and every line has been sent to all it is owed to |
| BroadcastChat.ClientList.Add | Test_Code/tcp_chat_broadcast_server.c:24-28 | the client is appended unless the list is full |
| BroadcastChat.ClientList.Remove | Test_Code/tcp_chat_broadcast_server.c:29-38 | the nested shift loop is exactly the deletion of the first occurrence |
| SelectChat.BroadcastReaches | MoreLearning/TCP_CHAT/Brodcast/Server.c:12-18 | a broadcast reaches each client in the table once, but not its sender nor one to whom the send fails |
| SelectChat.ScanKeepsRoom | MoreLearning/TCP_CHAT/Brodcast/Server.c:58-71 | a scan, with hang-ups in the middle, keeps the server a chat room at every slot |
| SelectChat.RunIsRoom | MoreLearning/TCP_CHAT/Brodcast/Server.c:33-72 | over any number of rounds the table is distinct, open and exactly who is present in a room where clients join, speak and leave one at a time; each inbox is what that one history lets the client hear, but for messages whose send to it failed |
| SelectChat.RoundReadsReadyOnce | MoreLearning/TCP_CHAT/Brodcast/Server.c:34-71 | in each round every client in the table that is ready is read exactly once, in slot order, no other is, and a just accepted one never is |
| SelectChat.RoundIsAsReported | MoreLearning/TCP_CHAT/Brodcast/Server.c:46-71 | what a round adds to the history is what the kernel reported: the newcomer joins if it finds a free slot; each ready client that sent a message says it, missed by exactly those to whom sending fails, and each that did not leaves and is closed |
| SelectChat.SelectServer.Broadcast | MoreLearning/TCP_CHAT/Brodcast/Server.c:12-18 | the loop delivers to every other used slot in slot order |
| SelectChat.SelectServer.BuildSet | MoreLearning/TCP_CHAT/Brodcast/Server.c:34-44 | what select reports is among the positive entries of the table |
| SelectChat.SelectServer.AcceptNewcomer | MoreLearning/TCP_CHAT/Brodcast/Server.c:46-56 | the newcomer joins in the first free slot, or stays open and unheard |
| SelectChat.SelectServer.Turn | MoreLearning/TCP_CHAT/Brodcast/Server.c:33-72 | one turn of the main loop is one round |
| UdpFile.MarkerChunkIsLast | MoreLearning/UDP_FILE/UDP_FILE_CLIENT.c:59-69 | a chunk is "EOF" or "ERROR" byte for byte if and only if it is the last and the file's part past the last multiple of 1024 bytes is |
| UdpFile.RunCounted | MoreLearning/UDP_FILE/UDP_FILE_SERVER.c:57-76 | acknowledgements received <= acknowledgements sent <= packets written <= packets sent, and datagrams posted = delivered + in flight + dropped, in every reachable state |
| UdpFile.RunInStep | MoreLearning/UDP_FILE/UDP_FILE_SERVER.c:59-76 | while no wait has failed nothing is in flight at the loop head and during a wait only the chunk just sent or its acknowledgement |
| UdpFile.AllAckedMeansIntact | MoreLearning/UDP_FILE/UDP_FILE_SERVER.c:59-79 | over a network that drops, delays and reorders, with the client free to give up at any moment: if every wait returned an acknowledgement the client's file is the server's |
| UdpFile.AckIsGenuine | MoreLearning/UDP_FILE/UDP_FILE_SERVER.c:70-75 | before the first failed wait an acknowledgement taken is for the packet just sent |
| UdpFile.LateAckIsMiscredited | MoreLearning/UDP_FILE/UDP_FILE_SERVER.c:70-75 | for every file of two chunks or more a schedule after which the server takes a late acknowledgement for a packet that was lost and counts it as acknowledged |
| UdpFile.MiscreditExactly | MoreLearning/UDP_FILE/UDP_FILE_SERVER.c:59-76 | an acknowledgement can be credited to a packet the client never had if and only if the file is longer than one chunk |
| UdpFile.LostForGood | MoreLearning/UDP_FILE/UDP_FILE_SERVER.c:59-76 | there is no retransmission: a chunk neither written nor on its way is never written, whatever follows |
| UdpFile.RefusedStaysEmpty | MoreLearning/UDP_FILE/UDP_FILE_SERVER.c:49-55 | if the server cannot open the file, the client's file stays empty under every schedule |
| UdpFile.RefusalIsTold | MoreLearning/UDP_FILE/UDP_FILE_SERVER.c:50-54 | and the server says "ERROR", which ends the client |
| UdpFile.AllAckedIsPossible | MoreLearning/UDP_FILE/UDP_FILE_CLIENT.c:51-78 | a transfer can end with every wait acknowledged if and only if the file's part past the last multiple of 1024 bytes is neither "EOF" nor "ERROR" |
| UdpFile.OrderedSubsequence | MoreLearning/UDP_FILE/UDP_FILE_CLIENT.c:51-78 | over a network that may drop but not reorder, the client's file is always made of a subsequence of the chunks in order |
| UdpFile.LosslessTransfer | MoreLearning/UDP_FILE/UDP_FILE_CLIENT.c:51-78 | without loss, reordering or client timeouts a finished client has the file if and only if that last part is neither "EOF" nor "ERROR", and otherwise the file without it |
| UdpFile.LosslessIsPossible | MoreLearning/UDP_FILE/UDP_FILE_CLIENT.c:51-78 | such a transfer can be completed, whatever the file |
| UdpFile.BothCanEnd | MoreLearning/UDP_FILE/UDP_FILE_SERVER.c:59-80 | from every reachable state both programs can come to their end, the server if it is ever started |
| UdpFile.PostsComeBack | MoreLearning/UDP_FILE/UDP_FILE_SERVER.c:59-79 | sender and receiver loops composed give the file back, but for a last part that is "EOF" or "ERROR" |
| UdpFile.PostsAreTheFile | MoreLearning/UDP_FILE/UDP_FILE_SERVER.c:59-79 | what is posted is the whole file in parts of 1024 bytes, of which only the last may be shorter, and then "EOF" |
| UdpFile.RunPosts | MoreLearning/UDP_FILE/UDP_FILE_SERVER.c:59-79 | in every run the server has posted what its loop posts, up to where it stands |
| UdpFile.RunAccepts | MoreLearning/UDP_FILE/UDP_FILE_CLIENT.c:51-78 | in every run the client's file is what its loop keeps of the datagrams that have reached it |
| UdpFile.FileSender.SendFile | MoreLearning/UDP_FILE/UDP_FILE_SERVER.c:57-80 | the loop posts the file's chunks in order and then the end marker, waits once after each chunk however the waits end, and counts the acknowledged ones |
| UdpFile.FileReceiver.ReceiveFile | MoreLearning/UDP_FILE/UDP_FILE_CLIENT.c:49-78 | the loop writes and acknowledges what arrives before the first datagram that is "EOF" or "ERROR" byte for byte |
| FramedTransfer.NumberRoundTrip | Test_Code/tcpFTserver.c:197-205 | decoding the network-order bytes of a number that fits gives the number |
| FramedTransfer.BytesRoundTrip | Test_Code/tcpFTclient.c:186-192 | encoding what bytes decode to gives the bytes |
| FramedTransfer.FirstByteWeighsMost | Test_Code/tcpFTserver.c:197-205 | the first byte weighs most: the byte order is that of the network |
| FramedTransfer.FrameLayout | Test_Code/tcpFTclient.c:186-197 | the frame byte by byte: four of the name's length, the name, eight of the size, the file |
| FramedTransfer.ParseFrame | Test_Code/tcpFTserver.c:197-219 | parsing a frame, whatever follows, gives back exactly its name, its body and what follows |
| FramedTransfer.FrameParse | Test_Code/tcpFTserver.c:197-219 | whatever is accepted is a frame with an admissible name, followed by the rest |
| FramedTransfer.FramesAreUnambiguous | Test_Code/tcpFTclient.c:186-197 | the encoding is injective and self-delimiting |
| FramedTransfer.ProperPrefixIsShort | Test_Code/tcpFTserver.c:197-218 | no proper prefix of a frame is accepted |
| FramedTransfer.BadNameIsRefused | Test_Code/tcpFTserver.c:199 | a header is refused if and only if its name length is 0 or above 4096 |
| FramedTransfer.PrefixAlways | Test_Code/tcpFTserver.c:210-218 | for every interleaving of short sends, short receives and failures no byte is lost or reordered, the server's file is a prefix of the client's, the count received never passes the size and every request is between 1 and the buffer size |
| FramedTransfer.CompletionIsExact | Test_Code/tcpFTserver.c:197-222 | a server that completes has the client's name and file, and the stream is used up |
| FramedTransfer.Progress | Test_Code/tcpFTclient.c:162-170 | as long as the server is not done and nobody has failed somebody can move a byte |
| FramedTransfer.MovesDecrease | Test_Code/tcpFTserver.c:177-185 | every send and receive lowers what remains to be moved |
| FramedTransfer.DiesOnlyOfBadName | Test_Code/tcpFTserver.c:197-216 | without failures the server dies only of a name it does not take, when it has taken just the length |
| FramedTransfer.ServerIsParser | Test_Code/tcpFTserver.c:197-222 | in every run the server is reading, dead or finished exactly as the parser finds the bytes taken so far short, badly named or complete, and then with the parsed name and body |
| FramedTransfer.QuietMeansDelivered | Test_Code/tcpFTserver.c:197-222 | a failure-free schedule that cannot go on has delivered name and file if the name is admissible, and has ended the server if it is not |
| FramedTransfer.NeverHangs | Test_Code/tcpFTserver.c:197-218 | a server that is still reading is never stuck, whatever has failed |
| FramedTransfer.AnyCutIsPossible | Test_Code/tcpFTclient.c:162-170 | a send may hand over any part of what is left, a receive get any part of what has arrived up to what it asks for, and each may fail |
| FramedTransfer.RecvAll | Test_Code/tcpFTserver.c:177-185 | exactly the next len bytes, however they are cut up; less only if the stream ends short or a call fails |
| Network.SendAll | Test_Code/tcpFTclient.c:162-170 | exactly the len bytes in order; if and only if a call fails a part of them from the beginning and an error |
| FramedTransfer.RecvBody | Test_Code/tcpFTserver.c:210-218 | the body loop gets exactly the announced bytes; a prefix of the stream only if that ends short or a call fails |
| FramedTransfer.ReceiveTransfer | Test_Code/tcpFTserver.c:195-222 | on any cutting of the stream the server's main decides as the parser does and writes the parsed body, unless a call fails |
| FramedTransfer.SendTransfer | Test_Code/tcpFTclient.c:186-201 | unless a call fails exactly the frame has been handed over, and otherwise a prefix of it |
| FileHandshake.CString | Test_Code/tcp_file_transfer_server.c:102-103 | what strcmp compares is the buffer up to its first NUL |
| FileHandshake.RunStory | Test_Code/tcp_file_transfer_client.c:55-103 | over every segmentation: what each side has sent, by where it stands, and what the server has made of it |
| FileHandshake.OpenedMeansAgreed | Test_Code/tcp_file_transfer_server.c:98-110 | the server opens a file only if both users have answered yes when asked |
| FileHandshake.NoIsSaid | Test_Code/tcp_file_transfer_client.c:71-73 | a no at the client is answered with "CANCEL\n", and that is all it says |
| FileHandshake.NeverStuck | Test_Code/tcp_file_transfer_server.c:98-135 | until both have closed somebody can go on without any call failing |
| FileHandshake.AllOrNothing | Test_Code/tcp_file_transfer_server.c:118-135 | for a file not starting with a NUL: never opened, or always a prefix of the client's file and equal to it once the client has finished and all has arrived |
| FileHandshake.NulLosesBeginning | Test_Code/tcp_file_transfer_server.c:100-105 | for every file starting with a NUL a schedule in which its beginning is lost |
| FileHandshake.IntactExactly | Test_Code/tcp_file_transfer_server.c:100-131 | under every schedule the opened file and what is on its way are what the client has sent, if and only if the file does not start with a NUL |
| FileHandshake.OpensExactly | Test_Code/tcp_file_transfer_server.c:100-105 | once both have agreed and the server has made its second receive, the file is open if and only if that receive gave "OK\n" alone, or more of a file starting with a NUL |
| FileHandshake.FinishedNotOpened | Test_Code/tcp_file_transfer_client.c:64-103 | for every file and every cut of the stream a schedule in which both agree and the client finishes, and the server opens the file only if the cut is right |
| FileHandshake.TransferCompletes | Test_Code/tcp_file_transfer_server.c:98-135 | for every file a schedule that ends with both programs closed and the whole file at the server |
| FileHandshake.ReceiveFile | Test_Code/tcp_file_transfer_server.c:118-135 | unless a call fails everything received up to the end of the connection goes to the file, in order |
| FileHandshake.HandleSend | Test_Code/tcp_file_transfer_server.c:98-116 | the answer is sent; the file is opened if and only if the user says yes and one receive, asking for all but one byte of the buffer, gives what strcmp takes for OK, and it holds what follows that receive |
| FileHandshake.SendFile | Test_Code/tcp_file_transfer_client.c:86-103 | the client hands over the whole file, or a prefix if a call fails or a send falls short |
| TurnTaking.RunKeepsTurn | Test_Code/tcp_chat_turntaking_client.c:34-50 | whoever waits for an answer has not spoken into the void: bytes or the turn are somewhere |
| TurnTaking.ClientFirstNeverDeadlocks | Test_Code/tcp_chat_turntaking_client.c:44-49 | client-first no reachable state has both programs in recv with both channels empty, for every segmentation and any input |
| TurnTaking.ServerFirstDeadlockStep | Test_Code/tcp_chat_turntaking_client.c:36-39 | server-first a step enters deadlock if and only if it is an empty reply given while nothing is under way and the server waits |
| TurnTaking.ServerFirstDeadlocksExactly | Test_Code/tcp_chat_turntaking_client.c:35-42 | a server-first run ends deadlocked if and only if such an empty reply was given and neither program has been stopped since |
| TurnTaking.ServerFirstNeverDeadlocks | Test_Code/tcp_chat_turntaking_server.c:29-34 | server-first without empty replies there is no deadlock |
| TurnTaking.EmptyReplyDeadlocks | Test_Code/tcp_chat_turntaking_client.c:39 | after any first line of the server an empty reply leaves both programs stuck for good |
| TurnTaking.TurnGoesOn | Test_Code/tcp_chat_turntaking_client.c:34-50 | in both modes, unless the turn is lost, bytes can move whenever no user is being asked and no program has ended |
| TurnTaking.AnyCutIsPossible | Test_Code/tcp_chat_turntaking_client.c:41-48 | a send may hand over any part of what is left, and a receive get any part of what has arrived that fits the buffer |
| TurnTaking.ProgramsAreAsDriven | Test_Code/tcp_chat_turntaking_client.c:34-50 | the lines are those typed, and a program ends if and only if it is stopped or, at the client, by quit |
| TurnTaking.RunConverses | Test_Code/tcp_chat_turntaking_client.c:34-50 | over every segmentation, in both modes, each side says what its user types and what is said arrives in order |
| TurnTaking.ClientHearsItself | Test_Code/tcp_chat_turntaking_server.c:36-41 | client-first the client hears a prefix of what it has said, and all of it once nothing is under way |
| TurnTaking.BothAreHeard | Test_Code/tcp_chat_turntaking_server.c:30-34 | server-first each side hears a prefix of the lines typed at the other |
| TurnTaking.ServeEcho | Test_Code/tcp_chat_turntaking_server.c:36-41 | what comes in goes out, all of it when the client closes, and a prefix if and only if a call fails |
| TurnTaking.Converse | Test_Code/tcp_chat_turntaking_client.c:44-49 | the client says its non-empty lines up to quit, in order, waiting once after each; unless a call fails it stops early only at a line that the server closes on |
| TurnTaking.Lead | Test_Code/tcp_chat_turntaking_server.c:30-34 | the server, speaking first, does the same without quit |
| TurnTaking.Reply | Test_Code/tcp_chat_turntaking_client.c:35-42 | the client, speaking second, says its lines up to quit, one per receive, also an empty one; unless a call fails it stops early only when the server closes |
| UdpRegistry.SendersOnce | MoreLearning/UDP_CHAT/Brodcast/Server.c:42-49 | each sender is listed once, at its first datagram |
| UdpRegistry.SendersByFirst | MoreLearning/UDP_CHAT/Brodcast/Server.c:42-49 | the senders stand in the order of their first datagrams |
| UdpRegistry.TableIsRoll | MoreLearning/UDP_CHAT/Brodcast/Server.c:42-53 | after any datagrams the table is the first ten distinct senders in order of arrival |
| UdpRegistry.PostsReach | MoreLearning/UDP_CHAT/Brodcast/Server.c:13-21 | a broadcast reaches each registered address once, and not its sender |
| UdpRegistry.InboxIsDue | MoreLearning/UDP_CHAT/Brodcast/Server.c:33-56 | each registered address has been sent exactly the later messages from others, once each and in order, also from senders that never fitted; others nothing |
| UdpRegistry.Server.Broadcast | MoreLearning/UDP_CHAT/Brodcast/Server.c:13-21 | the loop posts to every registered address that differs from the sender in port or host |
| UdpRegistry.Server.Receive | MoreLearning/UDP_CHAT/Brodcast/Server.c:33-56 | one turn of the main loop registers the sender if it is new and there is room, and broadcasts |
| ReapAccounting.RunKeepsAccounted | Test_Code/tcp_echo_server_multiprocess.c:41-68 | with children exiting at any moment the counter accounts for all forked, unreaped children, wrap-around included |
| ReapAccounting.CounterIsExact | Test_Code/tcp_echo_server_multiprocess.c:56-68 | waitpid is never called without children, and the counter is their exact number as long as it fits 32 bits |
| ReapAccounting.PollSteps | Test_Code/tcp_echo_server_multiprocess.c:59-67 | the inner loop is left if and only if the counter is zero or the poll found no zombie; otherwise the counter goes down and never underflows |
| ReapAccounting.RunCounts | Test_Code/tcp_echo_server_multiprocess.c:41-68 | children about are forks less reaps, zombies exits less reaps, and the counter, wrap-around included, forks less reaps but for a fork just made |
| ReapAccounting.GoesOn | Test_Code/tcp_echo_server_multiprocess.c:56-67 | between accepts the server is never stuck: a fork is counted, and a poll ends the inner loop or lowers the counter |
| ReapAccounting.Server.ReapZombies | Test_Code/tcp_echo_server_multiprocess.c:59-67 | the inner loop takes out exactly the children it reaps, and lowers the counter by their number |
| ReapAccounting.Server.ServeClient | Test_Code/tcp_echo_server_multiprocess.c:41-68 | one turn of the main loop adds the new child, takes out those reaped and counts both, wrap-around included; it ends with the counter at zero or no zombie left, and waitpid does not fail |
| EchoPipeline.EchoConserves | Test_Code/tcp_echo_client.c:60-78 | at every step the string is received ++ return channel ++ server buffer ++ outbound channel; the client's total never exceeds its length and its loop ends with exactly the string |
| EchoPipeline.EchoProgresses | Test_Code/tcp_echo_client.c:71-78 | until the client has its string back some move is possible that lowers the distance |
| EchoPipeline.MovesLowerDistance | Test_Code/tcp_echo_server_multithread.c:150-162 | every move lowers the distance |
| EchoPipeline.EchoEnds | Test_Code/tcp_echo_client.c:71-78 | from every live state the client can come to its end, with exactly its string |
| EchoPipeline.AnyCutIsPossible | Test_Code/tcp_echo_server_multithread.c:150-162 | a receive may get any part of what has arrived that fits its buffer |
| EchoPipeline.HandleTCPClient | Test_Code/tcp_echo_server_multithread.c:145-166 | the server sends back all it receives until the client closes, and a prefix of it only if a call fails or a send falls short |
| EchoPipeline.Echo | Test_Code/tcp_echo_client.c:60-78 | the client sends its string whole and receives, in order, at least as many bytes back and less than a bufferful more; it dies only if a call fails, the send falls short or the server closes early |

## Left out

- Socket set-up, address and argument parsing, signals, printing and prompts: library calls without an algorithm.
- The RECV command of the handshake transfer.  The server sends its file only after a separate "OK\n", so it cannot run into the file; but a server that cannot open the file sends an error text, which the client stores as the file.
- The command line of the handshake transfer: it is taken to arrive whole and to be SEND.
- The buffer edges of C strings (a terminator written at a full buffer, strlen on one) in the chat servers: messages are taken to leave room for the terminator.
- Mixed modes of the turn-taking chat (one program started client-first, the other server-first).
- Fork failing, malloc failing and thread creation failing other than as an end of the server.
- Commented-out code in Test_Code/tcpFTclient.c and Test_Code/tcpFTserver.c, one-way programs, uppercase echo, UDP echo, MoreLearning/TCP_FILE, the iterative, constrained and multiplexing echo servers and the chat clients: they repeat what is modelled or add only simple claims.
- FramedTransfer.SendTransfer: takes path names shorter than 2^32 bytes and files shorter than 2^64, where the original's ftell stops at 2^63.
- Kernel.Resolve: descriptors are unbounded integers, without the limit of FD_SETSIZE on select.
