# ChatOrion, modelled and proved in Dafny

ChatOrion is a distributed chat backend: chat servers that speak a framed protocol with their
clients, a status server that hands out chat servers and watches their heartbeats, and MySQL and
Redis behind them. This project models the parts of it that keep state and proves what holds over
whole runs of them.

| file | what it models |
|---|---|
| `wire.dfy` | the frame format, and the session reader that rebuilds frames from socket reads |
| `send_queue.dfy` | the session's send queue under concurrent senders and write completions |
| `pool_monitor.dfy`, `dao_progress.dfy` | the connection pool as a monitor shared by DAO calls; progress, completion, close |
| `connect_pool.dfy` | the pool object, its keep-alive pass, and the DAO methods that borrow from it |
| `status_registry.dfy` | the status server's registry, heartbeats, sweeps and least-loaded choice |
| `message_accounts.dfy` | unread accounting in the message tables |
| `friend_transactions.dfy` | the friend transaction, and what it does to later calls on its connection |
| `redis_keys.dfy`, `unread_cache.dfy` | key names and decimal text; the unread cache in Redis |
| `profile_cache.dfy` | the profile cache shared by look-ups by uid and by name |
| `cluster_routing.dfy` | a text message on its way through a cluster of chat servers |
| `routing_history.dfy` | what that cluster sends, against the logins and bindings of its history |
| `handler_progress.dfy` | the handlers of a server and the connection pool they wait for |
| `delivered_durable.dfy` | the cluster and the database together: when a delivered message is also a committed one |
| `io_service_pool.dfy` | round-robin choice of an I/O context |
| `wrappers.dfy` | the option type |

Code that changes fields in place is modelled twice: a class whose methods follow the source step
by step, and a machine on values that the methods are proved against and that runs are built from.
Concurrency is interleaving of the steps between which the source holds no lock.

Constants are those of `ChatOrionServer/platform/const.h`: two-byte id and length, `MAX_LENGTH`
2048, `MAX_SENDQUE` 1000. The 15, 30 and 10 second periods and the 600 second keep-alive are those
of `CServer.cpp`, `StatusServiceImpl.cpp` and `MySQLConnectPool.cpp`.

## What the proofs found

Some things the code relies on do not hold. Each is kept as the code has it, with an input that
shows it and the exact condition under which the code is right.

- `chat_message_relation` has no unique key on (user_id, peer_id), so `ON DUPLICATE KEY UPDATE`
  never applies and every save adds a row. The sum over a pair's rows is right; one row is, exactly
  when at most one message came in since the last mark-read (`OneRowSuffices`).
- `AddFriend` leaves its pooled connection with autocommit off, until the keep-alive pass happens
  to give the connection a new session. A `SaveChatMessage` in between returns true for a message
  that is not committed. The rollback of the next failing `AddFriend` takes it away
  (`SavedMessageLost`), and so does the reconnect itself, even if the next transaction to end is a
  commit (`ReconnectLosesSave`). `SaveIsDurableExactly` says which saves last. A message can thus be
  delivered and gone (`DeliveredThenLost`, `DeliveredIsDurableExactly`).
- `GetFriendList` takes a second connection while it holds one. A list of calls can bring a pool
  into a deadlock exactly when as many of them as it has connections are `GetFriendList` calls for
  somebody with a friend (`DeadlockExactly`); with fewer, every run ends (`EveryRunFinishes`). The
  same calls, and only they, can leave a text message waiting for ever to be saved
  (`StuckExactly`, `HandlersFinish`).
- `close()` of a pool sets its flag and notifies without the mutex. A thread that was between its
  test and its sleep from the one to the other is never woken, and it is the only one
  (`StrandedExactly`, `StrandedReachable`).
- Look-ups by name and by uid share a key space. The cache answers as the database does if and only
  if every searched name that is the text of a looked-up uid agrees with that uid
  (`CacheIsTransparentExactly`).
- `RedisManager::hget` returns a string literal, hence true, for a missing field. After the details
  of one unread message have expired, `GetUnreadMessages` returns neither that message nor those
  behind it in the peer's list, readable or not (`ReadableMessageDropped`). All unread messages come
  back exactly when all are legible (`NothingUnreadIsLostExactly`); where no caching broke off half
  way, exactly when the details of none have expired since it was last cached
  (`ExpiryLosesExactly`).

## Assumptions

Redis and MySQL carry out each command they accept as documented; `INSERT IGNORE` skips only
duplicates; a rollback leaves nothing of its transaction, also when it fails because the session is
gone; a session that the pool replaces takes its open transaction with it. A call to another chat
server returns, in order or with a failed status. JSON text round-trips. Clocks do not go back. A
socket read completes with at least one byte, a read of zero bytes with none. The user table does
not change while profiles are looked up.

## Model

| member | source | states |
|---|---|---|
| `Wire.HostToNetwork` | ChatOrionServer/ChatServer/MsgNode.cpp:17-25 | the sixteen bits of a short, the more significant byte first, from which the short is read back |
| `Wire.NetworkToHostInverse` | ChatOrionServer/ChatServer/CSession.cpp:50-65 | every pair of header bytes is the image of the short read from it |
| `Wire.MsgNode.Send` | ChatOrionServer/ChatServer/MsgNode.cpp:14-28 | the node's buffer holds the id in bytes 0 and 1, the body length in bytes 2 and 3, both most significant byte first, then the body and a terminator: exactly the encoded frame |
| `Wire.EncodeLayout` | ChatOrionServer/ChatServer/MsgNode.cpp:14-28 | every encoded frame, byte by byte |
| `Wire.ParseByHeader` | ChatOrionServer/ChatServer/CSession.cpp:45-80 | every stream, by the bytes of its header: refused above 2048, lost on a negative length, otherwise taken off when complete |
| `Wire.RoundTrip` | ChatOrionServer/ChatServer/MsgNode.cpp:14-28 | every list of deliverable frames, encoded and parsed, is that list with nothing left over |
| `Wire.PrefixFrames` | ChatOrionServer/ChatServer/CSession.cpp:22-123 | on any prefix of an encoded stream exactly the frames wholly inside it are found, and nothing is refused |
| `Wire.ParseExtend` | ChatOrionServer/ChatServer/CSession.cpp:22-123 | later bytes never change frames already found; a refused stream stays refused |
| `Wire.Complete` | ChatOrionServer/ChatServer/CSession.cpp:22-123 | every read completion leaves a well-formed reader, whatever the bytes |
| `Wire.CompleteRepresents` | ChatOrionServer/ChatServer/CSession.cpp:183-214 | after each completion the reader's state is the parse of all bytes read |
| `Wire.ReaderMeetsParse` | ChatOrionServer/ChatServer/CSession.cpp:183-214 | for every byte stream and every cutting of it, the posted frames are those of the stream, up to where it is refused |
| `Wire.EncodedFramesArePosted` | ChatOrionServer/ChatServer/CSession.cpp:84-123 | any cutting of an encoded stream posts exactly the encoded frames in order |
| `Wire.SessionReader.CopyIn` | ChatOrionServer/ChatServer/CSession.cpp:194-195 | a read fills the buffer behind what is there and never leaves it |
| `Wire.SessionReader.OnRead` | ChatOrionServer/ChatServer/CSession.cpp:190-214 | the callback chain on the session's buffer does what the reader machine does; a completion with an error closes the session and posts nothing |
| `Wire.SessionReader.Pump` | ChatOrionServer/ChatServer/CSession.cpp:183-214 | a segment is consumed in finitely many reads, after which every frame of the stream has been posted; after a read error, every frame of the part that was read |
| `SendQueue.StepKeepsInv` | ChatOrionServer/ChatServer/CSession.cpp:125-169 | each send, transfer, completion and error keeps: one write at a time, for the front; no byte skipped or repeated; bounded queue |
| `SendQueue.WireIsPrefixOfAccepted` | ChatOrionServer/ChatServer/CSession.cpp:125-169 | in every interleaving the wire is a prefix of the accepted frames in acceptance order, and an idle healthy session has nothing queued |
| `SendQueue.AcceptedExactly` | ChatOrionServer/ChatServer/CSession.cpp:125-169 | over every run, a send is accepted exactly when at most MAX_SENDQUE of the frames accepted before have not completed |
| `SendQueue.NoWriteAfterError` | ChatOrionServer/ChatServer/CSession.cpp:216-235 | after a write error no run issues another write or moves a byte |
| `SendQueue.WireParses` | ChatOrionServer/ChatServer/CSession.cpp:145-146 | whatever has left the session parses into whole accepted frames from the first on, completed ones included |
| `SendQueue.PeerReadsAccepted` | ChatOrionServer/ChatServer/CSession.cpp:125-214 | of whatever part has arrived, and however it was cut, the peer's reader posts whole accepted frames in acceptance order from the first on, and every completed one once all has arrived |
| `SendQueue.SessionSender.Send` | ChatOrionServer/ChatServer/CSession.cpp:149-169 | `send` is the machine's send step and keeps the invariant |
| `SendQueue.SessionSender.HandleWrite` | ChatOrionServer/ChatServer/CSession.cpp:216-241 | `handleWrite` is the machine's completion step; an error closes the session |
| `PoolMonitor.StepKeepsInv` | ChatOrionServer/platform/MySQLConnectPool.cpp:50-81 | every step keeps: no connection held twice or both held and idle, their number, mutex ownership, and no lost wake-up |
| `DaoProgress.Conservation` | ChatOrionServer/platform/MySQLConnectPool.cpp:50-75 | in every run until close, idle and borrowed connections are exactly the initial ones |
| `DaoProgress.Progress` | ChatOrionServer/ChatServer/MySQLDao.cpp:350-392 | with fewer threads inside GetFriendList, with a row to look up, than connections, some unfinished call can step |
| `DaoProgress.EveryRunFinishes` | ChatOrionServer/ChatServer/MySQLDao.cpp:350-392 | with fewer GetFriendList calls that have a row than connections, every schedule, keep-alive turns included, takes finitely many steps of the calls and ends with all of them finished and all connections back |
| `DaoProgress.OneLookUpPerRow` | ChatOrionServer/ChatServer/MySQLDao.cpp:370-374 | in every run a GetFriendList call that no exception breaks off makes exactly one nested look-up per row, on a closed pool too, or none if it was refused its own connection |
| `DaoProgress.NoLookUpAfterAbort` | ChatOrionServer/ChatServer/MySQLDao.cpp:385-391 | after an exception a GetFriendList call makes no further nested look-up in any run |
| `DaoProgress.DeadlockExactly` | ChatOrionServer/ChatServer/MySQLDao.cpp:350-392 | for every pool and every list of calls, a deadlock can be reached if and only if at least as many of them as connections are GetFriendList calls with a row |
| `DaoProgress.StrandedExactly` | ChatOrionServer/platform/MySQLConnectPool.cpp:77-81 | once nothing can step after close, the unfinished calls are exactly those that were between test and sleep from the setting of the flag to the notification |
| `DaoProgress.StrandedReachable` | ChatOrionServer/platform/MySQLConnectPool.cpp:50-81 | a run of two calls and a close that leaves one of them asleep for ever |
| `DaoProgress.StoppedPoolRefuses` | ChatOrionServer/ChatServer/ChatGrpcClient.cpp:26-58 | once the stop flag is set, over every run: no connection is handed out, later calls get none, and nobody newly goes to sleep |
| `DaoProgress.StrandedByNotify` | ChatOrionServer/GateServer/verify_grpc_client.cpp:30-64 | the notification strands exactly the thread that is between test and sleep |
| `DaoProgress.StoppedRunEnds` | ChatOrionServer/platform/MySQLConnectPool.cpp:50-81 | in a stopped pool the calls in progress take finitely many steps |
| `ConnectPool.MySQLConnectPool.GetConnection` | ChatOrionServer/platform/MySQLConnectPool.cpp:50-65 | nullptr exactly on a stopped pool, a wait exactly on an empty running one, otherwise the front connection leaves the queue |
| `ConnectPool.MySQLConnectPool.ReturnConnection` | ChatOrionServer/platform/MySQLConnectPool.cpp:67-75 | the connection joins the back of the queue unless the pool is stopped |
| `ConnectPool.MySQLConnectPool.CheckConnection` | ChatOrionServer/platform/MySQLConnectPool.cpp:83-120 | same connections in the same order, those idle 600 s or more stamped now and with the new session if reconnected, the others untouched; or the queue turned up to the first one whose reconnect threw |
| `ConnectPool.KeptAliveIsRotation` | ChatOrionServer/platform/MySQLConnectPool.cpp:95-98 | a pass, broken off or not, leaves a rotation of the original connections |
| `ConnectPool.ListedExactly` | ChatOrionServer/ChatServer/MySQLDao.cpp:370-381 | the friend list holds a profile for u exactly when some row is u's and its lookup succeeded |
| `ConnectPool.ListedAt` | ChatOrionServer/ChatServer/MySQLDao.cpp:370-381 | the list place by place: each found row's profile behind those of the found rows before it, the user name as its remark, and nothing else |
| `ConnectPool.MySQLDao.GetUser` | ChatOrionServer/ChatServer/MySQLDao.cpp:62-105 | the row if there is one and the query does not throw; waits exactly on an empty running pool; the connection is back on every path |
| `ConnectPool.MySQLDao.GetFriendList` | ChatOrionServer/ChatServer/MySQLDao.cpp:350-392 | the found profiles of all rows, or of those before the row at which the result set throws; all connections back on every path; asleep exactly on an empty pool, or with its own connection in hand when that was the only one and there is a row |
| `ConnectPool.LoneCallSleeps` | ChatOrionServer/ChatServer/MySQLDao.cpp:350-392 | the monitor of the pool puts a lone call to sleep for ever in exactly those cases |
| `StatusRegistry.EvictionExactly` | ChatOrionServer/StatusServer/StatusServiceImpl.cpp:177-201 | over every run a server stays registered exactly when each sweep comes at most 30 s after its last contact |
| `StatusRegistry.OneMissedBeatIsTolerated` | ChatOrionServer/ChatServer/CServer.cpp:32-55 | beats at most two periods apart keep a server registered throughout, whatever others do |
| `StatusRegistry.TwoMissedBeatsEvict` | ChatOrionServer/StatusServer/StatusServiceImpl.cpp:191-195 | two beats missed and a sweep evict |
| `StatusRegistry.TimerContactRegisters` | ChatOrionServer/ChatServer/CServer.cpp:39-55 | after a completed contact the server is registered with the time of its last call, evicted before or not |
| `StatusRegistry.HandedOutIsRecent` | ChatOrionServer/StatusServer/StatusServiceImpl.cpp:42-48 | over every run, every registered server was heard from at most 30 s before the last sweep, so at most 40 s ago |
| `StatusRegistry.StatusServiceImpl.RegisterChatServer` | ChatOrionServer/StatusServer/StatusServiceImpl.cpp:106-136 | adds or replaces the entry with the given name, port and host, or the caller's address for an empty host, stamped now; refuses an empty name or port and changes nothing |
| `StatusRegistry.AddressAsRegistered` | ChatOrionServer/StatusServer/StatusServiceImpl.cpp:118-129 | over every run, a registered server is known by the name, port and host of its last registration |
| `StatusRegistry.StatusServiceImpl.Heartbeat` | ChatOrionServer/StatusServer/StatusServiceImpl.cpp:203-221 | stamps a known server, answers ServerNotFound for any other |
| `StatusRegistry.StatusServiceImpl.CheckHeartbeat` | ChatOrionServer/StatusServer/StatusServiceImpl.cpp:177-201 | erasing while iterating, in any order, leaves exactly the entries of age at most 30 |
| `StatusRegistry.StatusServiceImpl.ChooseServer` | ChatOrionServer/StatusServer/StatusServiceImpl.cpp:145-175 | for any order and any counts, even changing ones, the earliest server of the least count last read, a missing one standing for the largest int, with that count recorded; none if empty or a count is malformed |
| `StatusRegistry.StatusServiceImpl.GetChatServer` | ChatOrionServer/StatusServer/StatusServiceImpl.cpp:59-79 | the server handed out is registered, of the least count read, at the address of its last registration, and was heard from at most 30 s before the last sweep of the server's history |
| `MessageAccounts.CountsAgree` | ChatOrionServer/ChatServer/MySQLDao.cpp:394-431 | over every run, unread messages and the pair's summed unread_count are the messages saved since the last mark-read |
| `MessageAccounts.MessageKept` | ChatOrionServer/ChatServer/MySQLDao.cpp:394-431 | over every run each saved message is in the table as saved, in the order of the saves, with status 1 exactly if marked as read since |
| `MessageAccounts.RowsKept` | ChatOrionServer/ChatServer/chat_messages.sql:19-28 | one relation row per save without a unique key, one per pair with it |
| `MessageAccounts.NewestRow` | ChatOrionServer/ChatServer/MySQLDao.cpp:506-516 | last_msg_id of the newest row is the last message saved; its count is all unread messages or, as shipped, at most one |
| `MessageAccounts.OneRowSuffices` | ChatOrionServer/ChatServer/MySQLDao.cpp:506-516 | one row tells the whole count exactly with a unique key or at most one unread message |
| `MessageAccounts.ShippedSchemaMiscounts` | ChatOrionServer/ChatServer/chat_messages.sql:19-28 | two messages, newest row says one |
| `MessageAccounts.MessageTables.SaveChatMessage` | ChatOrionServer/ChatServer/MySQLDao.cpp:481-527 | both statements or, after an exception, none or only the first |
| `MessageAccounts.MessageTables.MarkMessagesAsRead` | ChatOrionServer/ChatServer/MySQLDao.cpp:394-431 | both statements or, after an exception, none or only the first |
| `FriendTransactions.FriendshipIsSymmetric` | ChatOrionServer/ChatServer/MySQLDao.cpp:240-305 | in every statement-by-statement interleaving with failures anywhere, the committed relation is symmetric |
| `FriendTransactions.OnlyCommitAddsThePair` | ChatOrionServer/ChatServer/MySQLDao.cpp:289-304 | only a call's commit changes the relation, by exactly its two rows; a call returning false adds nothing |
| `FriendTransactions.SaveIsDurableExactly` | ChatOrionServer/ChatServer/MySQLDao.cpp:258-305 | a saved row is committed exactly when its connection had autocommit or what next ended its transaction was a commit, not a rollback and not a keep-alive reconnect |
| `FriendTransactions.AutocommitExactly` | ChatOrionServer/platform/MySQLConnectPool.cpp:108-117 | a connection is in autocommit mode exactly while no AddFriend on it has begun its transaction since it last got a new session |
| `FriendTransactions.SavedMessageLost` | ChatOrionServer/ChatServer/MySQLDao.cpp:294-304 | a save that returned true, taken away by a later rollback |
| `FriendTransactions.ReconnectLosesSave` | ChatOrionServer/platform/MySQLConnectPool.cpp:108-117 | a save that returned true, taken away by a reconnect although the next transaction commits |
| `FriendTransactions.SqlSession.AddFriend` | ChatOrionServer/ChatServer/MySQLDao.cpp:240-305 | a run of the transaction machine for a failure at any statement: both rows or none, earlier uncommitted saves kept or dropped with them, autocommit off once the transaction began |
| `FriendTransactions.SqlSession.SaveChatMessage` | ChatOrionServer/ChatServer/MySQLDao.cpp:481-527 | the message row and then the relation row, up to the statement that throws, added to the tables in autocommit mode and to the open transaction otherwise; nothing is rolled back |
| `FriendTransactions.SqlSession.ReplaceSession` | ChatOrionServer/platform/MySQLConnectPool.cpp:108-117 | the reconnect step: autocommit on, the open transaction gone |
| `FriendTransactions.CallOutcome` | ChatOrionServer/ChatServer/MySQLDao.cpp:240-305 | for each failing statement, what a whole call leaves in the tables and on its connection |
| `RedisKeys.StoiText` | ChatOrionServer/ChatServer/ChatCacheManager.cpp:57-64 | std::stoi and std::stol read back what std::to_string wrote |
| `RedisKeys.ParseDecimalExactly` | ChatOrionServer/ChatServer/ChatCacheManager.cpp:57-64 | what std::stoi and std::stol make of any text, exceptions included |
| `RedisKeys.KeysInjective` | ChatOrionServer/ChatServer/redis_keys.h:13-30 | each key builder is injective, the two-uid unread key included |
| `RedisKeys.KeyFamiliesDisjoint` | ChatOrionServer/ChatServer/redis_keys.h:13-30 | no key belongs to two families, for all ints and all message ids |
| `RedisKeys.KeyExamples` | ChatOrionServer/ChatServer/redis_keys.h:13-30 | a key of each family, written out |
| `UnreadCache.AfterTyped` | ChatOrionServer/ChatServer/ChatCacheManager.cpp:13-75 | in one key space no command, HSET, RPUSH or ZADD, ever meets a value of another family's type |
| `UnreadCache.ListAndCounterAgree` | ChatOrionServer/ChatServer/ChatCacheManager.cpp:46-68 | over every run the unread list is the ids cached since the last mark-read and the counter text is their number |
| `UnreadCache.FiledExactly` | ChatOrionServer/ChatServer/ChatCacheManager.cpp:34-44 | after every run the sorted set of a user holds exactly the completely cached messages from or to that user, each with the time of its last caching |
| `UnreadCache.LatestDetails` | ChatOrionServer/ChatServer/ChatCacheManager.cpp:20-29 | a message reads back as cached until its id is cached again or expires |
| `UnreadCache.BuildsExactly` | ChatOrionServer/ChatServer/ChatCacheManager.cpp:180-203 | after every run, with detail phases broken off and expiries anywhere, a message can be read exactly when its history makes it legible |
| `UnreadCache.GatheredReturns` | ChatOrionServer/ChatServer/ChatCacheManager.cpp:144-219 | after every run, each peer's unread list comes back up to its first illegible message, and what was not touched since it was cached comes back as it was cached |
| `UnreadCache.UnreadAsCached` | ChatOrionServer/ChatServer/ChatCacheManager.cpp:144-219 | where no unread message was touched since it was completely cached, all come back, peer by peer in arrival order, with all their fields |
| `UnreadCache.LiveExactly` | ChatOrionServer/ChatServer/ChatCacheManager.cpp:20-32 | a complete caching without a later expiry, and only that, leaves all six fields |
| `UnreadCache.ReadableMessageDropped` | ChatOrionServer/platform/RedisManager.cpp:288-292 | an expired message takes the readable one behind it along |
| `UnreadCache.NothingUnreadIsLostExactly` | ChatOrionServer/ChatServer/ChatCacheManager.cpp:144-219 | in every run all unread ids come back, peer by peer in arrival order, although zero counters are skipped, if and only if all are legible |
| `UnreadCache.ExpiryLosesExactly` | ChatOrionServer/ChatServer/ChatCacheManager.cpp:31-32 | unexpired messages all come back; where no detail phase broke off, all unread ids come back if and only if none has expired |
| `UnreadCache.ChatCacheManager.CacheNewMessage` | ChatOrionServer/ChatServer/ChatCacheManager.cpp:13-75 | the commands of the call, cut short at the first failing detail command |
| `UnreadCache.ChatCacheManager.MarkMessagesAsRead` | ChatOrionServer/ChatServer/ChatCacheManager.cpp:123-141 | list deleted, counter zero |
| `UnreadCache.ChatCacheManager.ReadList` | ChatOrionServer/ChatServer/ChatCacheManager.cpp:180-203 | messages pushed before the first exception |
| `UnreadCache.ChatCacheManager.GetUnreadMessages` | ChatOrionServer/ChatServer/ChatCacheManager.cpp:144-219 | the peers' contributions in the order of HKEYS |
| `ProfileCache.CacheIsTransparentExactly` | ChatOrionServer/ChatServer/LogicSystem.cpp:648-698 | in all interleavings from an empty cache all answers are the database's if and only if names meet uids |
| `ProfileCache.SoundRunIsRight` | ChatOrionServer/ChatServer/LogicSystem.cpp:769-835 | from any sound cache every later hit is right, if names meet uids |
| `ProfileCache.DisagreementShows` | ChatOrionServer/ChatServer/LogicSystem.cpp:773-802 | of two look-ups, one after the other, by a name and a uid that disagree, the second is answered wrongly |
| `ProfileCache.ProfileReader.GetBaseInfo` | ChatOrionServer/ChatServer/LogicSystem.cpp:648-698 | the cached profile, or the row of that uid, which is then cached, or nothing |
| `ProfileCache.ProfileReader.GetUserByName` | ChatOrionServer/ChatServer/LogicSystem.cpp:769-835 | the cached profile, or the row of that name, which is then cached, or nothing |
| `RoutingHistory.StoreBeforeDeliver` | ChatOrionServer/ChatServer/LogicSystem.cpp:500-565 | in every run a notification is for a message whose save returned true, with the fields that came in, on the server of the recipient's latest login when the routing key was read and the session of the latest binding there when it was looked up |
| `RoutingHistory.ResponseSaysWhatWasFound` | ChatOrionServer/ChatServer/LogicSystem.cpp:511-545 | in every run a response goes back where the request came from and says UidInvalid exactly when there was no routing key, or it named the own server and that had no session |
| `RoutingHistory.NotifiedExactly` | ChatOrionServer/ChatServer/LogicSystem.cpp:537-565 | in every run a finished request has made its one notification exactly when the look-up on the routed server found a session |
| `DeliveredDurable.DeliveredIsDurableExactly` | ChatOrionServer/ChatServer/LogicSystem.cpp:500-565 | in every run of cluster and database, a delivered message is committed at the end if and only if its save found autocommit on or its transaction was committed |
| `DeliveredDurable.DeliveredThenLost` | ChatOrionServer/ChatServer/LogicSystem.cpp:500-565 | a run in which a delivered message is in no table |
| `ClusterRouting.SendsPerRequest` | ChatOrionServer/ChatServer/LogicSystem.cpp:500-565 | at most one notification per request, exactly one response if saved, no send if not |
| `ClusterRouting.HandlerStepsBounded` | ChatOrionServer/ChatServer/LogicSystem.cpp:484-565 | in every run a handler takes at most five steps of its own |
| `HandlerProgress.HandlersFinish` | ChatOrionServer/ChatServer/MySQLDao.cpp:481-491 | with fewer GetFriendList calls with a row in its pool than connections, the handlers of a server, waiting for connections, take finitely many steps and all come to their end, whatever else happens |
| `HandlerProgress.StuckExactly` | ChatOrionServer/ChatServer/LogicSystem.cpp:499-504 | a server can come to a standstill with an unanswered request if and only if at least as many GetFriendList calls with a row as connections are in its pool |
| `ClusterRouting.LookUpsFindTheLatest` | ChatOrionServer/ChatServer/UserMgr.cpp:17-46 | in every run a look-up finds the latest binding not undone since, and a routing key names the server of the latest login |
| `ClusterRouting.Deployment.DealChatTextMsg` | ChatOrionServer/ChatServer/LogicSystem.cpp:484-565 | is a run of the machine; saves, notifies the one reachable bound session if any, responds once with the code for what was found |
| `ClusterRouting.Deployment.SaveMessage` | ChatOrionServer/ChatServer/LogicSystem.cpp:484-504 | the row is saved before anything is sent; a failed save ends the request |
| `ClusterRouting.Deployment.NotifyHere` | ChatOrionServer/ChatServer/LogicSystem.cpp:537-551 | one notification to the bound session, or the error for an unknown recipient |
| `ClusterRouting.Deployment.NotifyThere` | ChatOrionServer/ChatServer/ChatGrpcClient.cpp:150-184 | one notification on the named server if it is a peer, answers and holds a session; success is reported in any case |
| `ClusterRouting.Deployment.SendResponse` | ChatOrionServer/ChatServer/LogicSystem.cpp:519-523 | one response to the requesting session, with the code of the branch taken |
| `ClusterRouting.Deployment.SetRouting` | ChatOrionServer/ChatServer/LogicSystem.cpp:195-197 | the routing key names the server of the latest login |
| `ClusterRouting.Deployment.SetUserSession` | ChatOrionServer/ChatServer/UserMgr.cpp:28-32 | binds a user to a session, replacing an earlier one |
| `ClusterRouting.Deployment.RemoveUserSession` | ChatOrionServer/ChatServer/UserMgr.cpp:34-46 | unbinds a user, whichever session was bound |
| `ClusterRouting.Deployment.NotifyTextChatMsg` | ChatOrionServer/ChatServer/ChatServiceImpl.cpp:104-135 | queues one notification if the recipient has a session, nothing otherwise |
| `IoServicePool.RoundRobinIsFair` | ChatOrionServer/platform/AsioIOServicePool.cpp:44-51 | after any number of calls no context was handed out two times more than another |
| `IoServicePool.ServedInTurn` | ChatOrionServer/platform/AsioIOServicePool.cpp:44-51 | the first call gets context 0, each later one the next, and after the last comes 0 again |
| `IoServicePool.AsioIOServicePool.GetIOService` | ChatOrionServer/platform/AsioIOServicePool.cpp:44-51 | the index is in range and follows the round |

## Left out

- Generated protobuf and gRPC code, sockets, Boost.Asio, hiredis, the MySQL driver, settings, logging and the `main` functions: I/O, modelled as events and abstract stores.
- GateServer's HTTP callbacks, the verification mail service, `MySQLManager` and `ConnectionPoolProxy`: straight-line checks and forwarding.
- `StatusServiceImpl::Login`: its test rejects when the token is found, so it promises nothing; `LoginHandler` is present only as the routing and binding events of `cluster_routing.dfy`.
- `GetUserByUid`: not called anywhere.
- `UpdateLastMessage`, `AddFriendApply`, `AuthFriendApply`, `GetApplyList`, `GetRecentMessages` and `splitSQLScript`: single statements and plain loops; as users of the pool they are the monitor's `Single` calls.
- Frames whose body is longer than 32763 bytes, whose length no longer fits the encoder's short; a header with a negative length ends the model's reader in a state of its own, since the original then asks for a buffer of nonsensical size.
- The handler sees a posted body as a C string and so only up to its first zero byte.
- Redis commands that fail after the detail phase of `CacheNewMessage`, and counters beyond the int range.
- Two cache calls interleaved between reading and writing a counter, and the same for the login count: the unread theorems are about serial calls.
- A database call cut off between its two statements: `SaveChatMessage` and `MarkMessagesAsRead` state what is left, the accounting theorems are about complete calls. They count a call as done when it returns; whether its rows are committed is the subject of `FriendTransactions`.
- `GetHistoryMessages` re-caching old messages as new ones: only the cache's own agreement is claimed.
- `clearSession` and the binding of sessions to users at login: any order of bind and unbind events is allowed.
- The cache update between saving and routing a message, whose failure changes neither: the unread cache is a model of its own.
- ConnectPool.MySQLDao.GetFriendList: run by one thread; what happens after it goes to sleep is the subject of `DaoProgress`.
