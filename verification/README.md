# RabbitMQ receiver delivery engine and client lifecycle, in Dafny

This project models two pieces of sequential logic from the Avast RabbitMQ client library.

1. The delivery engine of `DefaultRabbitMQReceiver`. Listeners register with `addListener`. Registration opens a semaphore gate (`listenerMutex`). A supervisor runs every second and (re)starts the listener thread. The thread fetches deliveries from the broker and calls every listener on each one. Then it decides how the delivery tag is acknowledged, using a retry ledger (`failedTags`) when `allowRetry` is set.
2. The lifecycle flags of `RabbitMQClientBase`: `close`, `closeQuietly`, `isClosed` and `isAlive`, plus the timeout and recovery-interval defaulting in its constructor.

Everything is modelled as pure functions over immutable states:

- `Receiver.State` holds the listener set, the permit count, the retry ledger, the retry flag, the loop thread (`NoThread`, `Running` or `Terminated`) and an event log. The log records three kinds of calls: `completed` (a listener invoked), `basicAck`, and `failed(e)`.
- Threads become a flag. The blocking `acquire()` becomes a guard on the permit counter. A blocked start attempt leaves the state unchanged, and a later supervisor tick tries again.
- `nextDelivery()` becomes an input: a delivery tag or an error. Which listeners throw is also an input, a set of listener ids.
- The iteration order of the `HashSet` snapshot is a parameter. It must list each listener exactly once.
- `ReceiverRuns` composes the operations into arbitrary interleavings. It proves invariants that hold in every reachable state.
- The host/virtual-host parser is a pure function returning `Result`. `JavaText` models Java's `split("/")`, which drops trailing empty strings. It also models `StringUtils.isBlank`, which uses `Character.isWhitespace`.

Per-listener ACK decision (as written). The code decides inside the per-listener loop. It does not gather the failures first. Let k be the number of listeners that throw for one delivery:

- k = 0: one ack.
- Retry disabled: k acks.
- Retry enabled, tag already failed: k acks.
- Retry enabled, new tag: the tag joins the ledger and gets k - 1 acks. The second failing listener already sees the tag the first one added.

A design that decides once per delivery, after all listeners have run, would ack at most once. This model follows the code instead. `Receiver.AckBetweenListeners` shows the resulting log order: an ack can come between two listener calls. The ledger only grows, because no code path removes from it.

The semaphore's permit count is a Java `int`. `release(100000)` throws `java.lang.Error` once the count would pass `Integer.MAX_VALUE`. The listener has already been added when that happens. `AddListener` reports this as `permitOverflow`, and `ReceiverRuns.PermitOverflowReachable` shows that the 21475th registration reaches it. This holds even if the same listener is registered every time.

## Model

| member | source | states |
|---|---|---|
| `HostParsing.ParseHost` | src/main/java/com/avast/client/rabbitmq/DefaultRabbitMQReceiver.java:54-63 | an accepted bare host is the whole input and has no "/"; an accepted host/virtual-host pair has two non-blank parts |
| `HostParsing.BareHost` | src/main/java/com/avast/client/rabbitmq/DefaultRabbitMQReceiver.java:54-63 | a string without "/" is taken as the host, with no virtual host |
| `HostParsing.AcceptsHostAndVirtualHost` | src/main/java/com/avast/client/rabbitmq/DefaultRabbitMQReceiver.java:54-60 | two non-blank, slash-free parts joined by "/" are accepted as (host, vhost), with any number of trailing slashes |
| `HostParsing.AcceptedShape` | src/main/java/com/avast/client/rabbitmq/DefaultRabbitMQReceiver.java:55-60 | conversely, an accepted pair came from exactly host + "/" + vhost followed only by slashes, with slash-free parts |
| `HostParsing.RejectsMoreThanTwoSegments` | src/main/java/com/avast/client/rabbitmq/DefaultRabbitMQReceiver.java:55-57 | more than two segments after the split, followed by any number of trailing slashes, is the IllegalArgumentException |
| `HostParsing.RejectsBlankFirstSegment` | src/main/java/com/avast/client/rabbitmq/DefaultRabbitMQReceiver.java:55-57 | a blank or empty first segment is always rejected |
| `HostParsing.TrailingSlashesOnly` | src/main/java/com/avast/client/rabbitmq/DefaultRabbitMQReceiver.java:55-56 | "host/" (or more slashes) fails with an index error on parts[1], because split drops the trailing empty strings |
| `HostParsing.TrailingSlashExamples` | src/main/java/com/avast/client/rabbitmq/DefaultRabbitMQReceiver.java:55-60 | "a/" is rejected by an index error and "a/b/" is accepted as (a, b) |
| `JavaText.DropTrailingEmpty` | src/main/java/com/avast/client/rabbitmq/DefaultRabbitMQReceiver.java:55 | split's result is a prefix of the pieces that ends in a non-empty piece, and only empty pieces were dropped |
| `JavaText.JoinPieces` | src/main/java/com/avast/client/rabbitmq/DefaultRabbitMQReceiver.java:55 | joining the pieces with the separator gives the input back |
| `JavaText.PiecesSeparatorFree` | src/main/java/com/avast/client/rabbitmq/DefaultRabbitMQReceiver.java:55 | no piece contains the separator |
| `JavaText.PiecesOfJoin` | src/main/java/com/avast/client/rabbitmq/DefaultRabbitMQReceiver.java:55 | cutting the join of separator-free pieces gives those pieces back |
| `JavaText.Split` | src/main/java/com/avast/client/rabbitmq/DefaultRabbitMQReceiver.java:55 | without the separator the whole string is the only element; otherwise the result plus a run of empty strings gives back all the pieces, and its last element is not empty |
| `JavaText.SplitAgreesWithPieces` | src/main/java/com/avast/client/rabbitmq/DefaultRabbitMQReceiver.java:55 | on a non-empty string split is the pieces with trailing empty strings removed; the empty string alone splits to [""] rather than [] |
| `JavaText.IsWhitespace` | src/main/java/com/avast/client/rabbitmq/DefaultRabbitMQReceiver.java:56 | space, tab, newline and carriage return count as whitespace; the non-breaking spaces U+00A0, U+2007 and U+202F do not |
| `JavaText.IsBlank` | src/main/java/com/avast/client/rabbitmq/DefaultRabbitMQReceiver.java:56 | the empty string is blank, and a string is blank exactly when each of its characters is whitespace |
| `Settings.EffectiveMillis` | src/main/java/com/avast/client/rabbitmq/DefaultRabbitMQReceiver.java:69 | a positive timeout is kept; a zero or negative one becomes 5000; the result is always positive |
| `Settings.EffectiveMillisIdempotent` | src/main/java/com/avast/client/rabbitmq/RabbitMQClientBase.java:60-62 | a timeout is kept as it is exactly when it is positive, so defaulting twice changes nothing |
| `Settings.Credential` | src/main/java/com/avast/client/rabbitmq/DefaultRabbitMQReceiver.java:70-75 | a user name or password is passed on exactly when it has a non-whitespace character, and then unchanged |
| `Receiver.NewReceiver` | src/main/java/com/avast/client/rabbitmq/DefaultRabbitMQReceiver.java:48-75 | construction succeeds exactly when the host parses and fails with the parser's error otherwise; a positive timeout is kept and any other becomes 5000; user name and password are passed on only when not blank; the engine starts empty with the given retry flag |
| `Receiver.NewShortReceiver` | src/main/java/com/avast/client/rabbitmq/DefaultRabbitMQReceiver.java:99-101 | the three-argument constructor enables retry and passes no credentials; a positive timeout is kept and any other becomes 5000 |
| `Receiver.NewDefaultReceiver` | src/main/java/com/avast/client/rabbitmq/DefaultRabbitMQReceiver.java:103-105 | the two-argument constructor enables retry, passes no credentials and uses the 5000 ms default timeout |
| `Receiver.Init` | src/main/java/com/avast/client/rabbitmq/DefaultRabbitMQReceiver.java:40-46 | a new engine has no listener, no permit, an empty retry ledger, no loop thread and nothing logged, with the given retry flag |
| `Receiver.AddListener` | src/main/java/com/avast/client/rabbitmq/DefaultRabbitMQReceiver.java:107-113 | the listener is inserted (a listener already present leaves the set unchanged); permits are positive afterwards; 100000 are added unless that passes the int maximum, which is reported as the overflow error; nothing else changes |
| `Receiver.AddListenerIdempotent` | src/main/java/com/avast/client/rabbitmq/DefaultRabbitMQReceiver.java:108-111 | registering a listener twice leaves the same listener set as registering it once |
| `Receiver.PlanListener` | src/main/java/com/avast/client/rabbitmq/DefaultRabbitMQReceiver.java:115-124 | a (re)start can proceed exactly when permits are positive; it leaves the count unchanged and only marks the loop thread running |
| `Receiver.SupervisorTick` | src/main/java/com/avast/client/rabbitmq/DefaultRabbitMQReceiver.java:86-92 | a running loop is left alone; without a live thread and with permits a loop is started; with no permits nothing changes |
| `Receiver.Crash` | src/main/java/com/avast/client/rabbitmq/DefaultRabbitMQReceiver.java:124-177 | an uncaught exception leaves no running loop and changes nothing else |
| `Receiver.Ack` | src/main/java/com/avast/client/rabbitmq/DefaultRabbitMQReceiver.java:180-187 | one basicAck of the tag is appended to the log; no listener call is recorded and nothing else changes |
| `Receiver.OnListener` | src/main/java/com/avast/client/rabbitmq/DefaultRabbitMQReceiver.java:142-161 | a listener is called once; if it throws, the tag is acked when retry is off or the tag failed before, and is recorded in the ledger when retry is on |
| `Receiver.LoopIteration` | src/main/java/com/avast/client/rabbitmq/DefaultRabbitMQReceiver.java:131-173 | one loop iteration keeps listeners and permits; the ledger only grows and the log only extends; a delivery calls the snapshot in order; a fetch error acks nothing and leaves the ledger alone |
| `Receiver.DispatchCalls` | src/main/java/com/avast/client/rabbitmq/DefaultRabbitMQReceiver.java:138-162 | the per-listener loop calls each listener of the snapshot once, in order, sends no failed(e), and sets the error flag exactly when one listener throws |
| `Receiver.Dispatch` | src/main/java/com/avast/client/rabbitmq/DefaultRabbitMQReceiver.java:136-162 | the per-listener loop only extends the log and leaves listeners, permits, retry flag and thread unchanged |
| `Receiver.DispatchLedger` | src/main/java/com/avast/client/rabbitmq/DefaultRabbitMQReceiver.java:149-156 | after the loop the ledger gains the tag exactly when retry is on and at least one listener threw |
| `Receiver.DispatchAcks` | src/main/java/com/avast/client/rabbitmq/DefaultRabbitMQReceiver.java:142-162 | the acks sent inside the loop number k, or k - 1 for a new tag under retry, where k is the number of throwing listeners |
| `Receiver.Deliver` | src/main/java/com/avast/client/rabbitmq/DefaultRabbitMQReceiver.java:131-166 | per delivery every listener of the snapshot is called once, in order; the tag is acked exactly ExpectedAcks(k) times (none throws: 1; retry off: k; retry on and tag already failed: k; retry on and new tag: k - 1); the ledger gains the tag iff retry is on and k > 0; nothing else changes |
| `Receiver.RetryThenAck` | src/main/java/com/avast/client/rabbitmq/DefaultRabbitMQReceiver.java:149-156 | with retry on, a new tag that fails is recorded and acked k1 - 1 times; when the same tag fails again it is acked k2 times (no ack, then one ack, for a single listener) |
| `Receiver.AckBetweenListeners` | src/main/java/com/avast/client/rabbitmq/DefaultRabbitMQReceiver.java:142-162 | with retry off, when listener 1 throws and listener 2 does not, the log is: call 1, ack, call 2 (the ack comes inside the loop, before the next listener) |
| `Receiver.EachListenerOnce` | src/main/java/com/avast/client/rabbitmq/DefaultRabbitMQReceiver.java:138-145 | every listener of the snapshot is called exactly once per delivery, whether or not others throw, and nobody else is called |
| `Receiver.EnumerationsCountAlike` | src/main/java/com/avast/client/rabbitmq/DefaultRabbitMQReceiver.java:140-142 | any two iteration orders of the snapshot meet the same number of throwing listeners |
| `Receiver.SameCountAlike` | src/main/java/com/avast/client/rabbitmq/DefaultRabbitMQReceiver.java:142-166 | deliveries with the same number of throwing listeners give the same acks and the same ledger |
| `Receiver.OrderIndependent` | src/main/java/com/avast/client/rabbitmq/DefaultRabbitMQReceiver.java:138-166 | the acks, the ledger and the multiset of listener calls do not depend on the iteration order of the snapshot |
| `Receiver.CountIsCardinality` | src/main/java/com/avast/client/rabbitmq/DefaultRabbitMQReceiver.java:140-147 | for a repetition-free order, the number of throwing listeners equals the size of the throwing part of the snapshot |
| `Receiver.NotifySpec` | src/main/java/com/avast/client/rabbitmq/DefaultRabbitMQReceiver.java:167-173 | a fetch error sends no ack, calls no listener's completed and leaves the ledger alone; if no failed(e) throws, every listener is notified once, in order, and the loop continues; otherwise the loop thread ends |
| `Receiver.NotifyAll` | src/main/java/com/avast/client/rabbitmq/DefaultRabbitMQReceiver.java:167-173 | the fetch-error path sends no ack, calls no completed, and leaves ledger, listeners, permits and retry flag unchanged while only extending the log |
| `Receiver.NotifyAllListeners` | src/main/java/com/avast/client/rabbitmq/DefaultRabbitMQReceiver.java:169-172 | when no failed(e) throws, the notifications are exactly failed(e) for each listener of the snapshot, in order |
| `Receiver.NotifyThread` | src/main/java/com/avast/client/rabbitmq/DefaultRabbitMQReceiver.java:167-173 | the loop thread survives the fetch-error path exactly when no failed(e) throws, and is terminated otherwise |
| `ReceiverRuns.ApplyValid` | src/main/java/com/avast/client/rabbitmq/DefaultRabbitMQReceiver.java:86-178 | every single step keeps the invariant (permits exist iff a listener is registered; no thread, call or ack before the first registration; an empty ledger when retry is off) and only grows listeners, ledger and log |
| `ReceiverRuns.RunValid` | src/main/java/com/avast/client/rabbitmq/DefaultRabbitMQReceiver.java:86-178 | any interleaving of registrations, ticks, iterations and crashes keeps the invariant and only grows listeners, ledger and log |
| `ReceiverRuns.RunGrows` | src/main/java/com/avast/client/rabbitmq/DefaultRabbitMQReceiver.java:86-178 | from any state, any run only grows listeners, ledger and log and keeps the retry flag |
| `ReceiverRuns.NoConsumptionBeforeActivation` | src/main/java/com/avast/client/rabbitmq/DefaultRabbitMQReceiver.java:112-119 | while no listener is registered, no loop thread has started and nothing was called or acked |
| `ReceiverRuns.RetryDisabledLedgerEmpty` | src/main/java/com/avast/client/rabbitmq/DefaultRabbitMQReceiver.java:157-160 | with retry disabled the ledger stays empty in every run, so each failure is acked |
| `ReceiverRuns.LedgerNeverShrinks` | src/main/java/com/avast/client/rabbitmq/DefaultRabbitMQReceiver.java:149-156 | from any state, across any run, the ledger and the listener set never lose an element |
| `ReceiverRuns.PermitsAfterRegistrations` | src/main/java/com/avast/client/rabbitmq/DefaultRabbitMQReceiver.java:112 | each registration adds exactly 100000 permits while the total fits in an int |
| `ReceiverRuns.PermitOverflowReachable` | src/main/java/com/avast/client/rabbitmq/DefaultRabbitMQReceiver.java:112 | after 21474 registrations of one listener the gate holds 2147400000 permits and the next release overflows |
| `ReceiverRuns.RegisteredOnce` | src/main/java/com/avast/client/rabbitmq/DefaultRabbitMQReceiver.java:108-111 | registering one listener any number of times adds just that listener |
| `ReceiverRuns.RetryScenario` | src/main/java/com/avast/client/rabbitmq/DefaultRabbitMQReceiver.java:149-156 | with retry on and one listener that throws, the first delivery of tag 42 sends no ack and records 42; the redelivery sends exactly one ack |
| `ClientBase.NewClient` | src/main/java/com/avast/client/rabbitmq/RabbitMQClientBase.java:40 | a new client is not closed and has never closed its channel |
| `ClientBase.Close` | src/main/java/com/avast/client/rabbitmq/RabbitMQClientBase.java:136-142 | after close the client is closed; an already closed client is returned untouched with no error; an open one closes its channel exactly once; an error is reported only when the channel close fails on an open client |
| `ClientBase.CloseQuietly` | src/main/java/com/avast/client/rabbitmq/RabbitMQClientBase.java:144-151 | same state as close, and no error is returned |
| `ClientBase.IsClosed` | src/main/java/com/avast/client/rabbitmq/RabbitMQClientBase.java:153-156 | a client is closed exactly when a further close has nothing left to do (no change, no error) |
| `ClientBase.IsAlive` | src/main/java/com/avast/client/rabbitmq/RabbitMQClientBase.java:158-162 | an alive client is not closed, and an unclosed client is alive exactly when its channel is open |
| `ClientBase.CloseIdempotent` | src/main/java/com/avast/client/rabbitmq/RabbitMQClientBase.java:138 | closing a closed client (plainly or quietly) changes nothing and reports no error |
| `ClientBase.ClosedStaysClosed` | src/main/java/com/avast/client/rabbitmq/RabbitMQClientBase.java:136-142 | once closed, no sequence of operations reopens the client, closes the channel again, or makes the client alive |
| `ClientBase.ChannelClosedAtMostOnce` | src/main/java/com/avast/client/rabbitmq/RabbitMQClientBase.java:136-142 | over any run the channel was closed once if the client is closed and never otherwise |
| `ClientBase.AliveIffOpen` | src/main/java/com/avast/client/rabbitmq/RabbitMQClientBase.java:153-162 | an open client is alive exactly when its channel is open; after any close it is not alive |
| `ClientBase.NewClientSettings` | src/main/java/com/avast/client/rabbitmq/RabbitMQClientBase.java:55-69 | connection timeout and recovery interval are positive, kept when positive and 5000 otherwise; the virtual host is passed through; user name and password are passed on only when not blank |

## Left out

- Threads, the scheduled executor, the cached thread pools and the `synchronized` blocks are not modelled. Operations are interleaved as atomic steps, and the semaphore is a counter with a guard. When a blocked `planListener` wakes up, it is modelled as the next supervisor tick succeeding.
- The RabbitMQ connection, channel, `queueDeclare`, `basicConsume`, SSL and automatic recovery are library calls. `nextDelivery` is an input. The channel's open flag is set by the environment.
- An `IOException` while connecting is not modelled. That is the `RequestConnectException` of both constructors.
- `basicAck` is an append to the log, because its `IOException` is only logged. An unchecked exception from `basicAck` is not modelled. Such an exception would leave the per-listener loop and reach the outer `catch`. Neither is the channel error that the broker raises when a tag is acked twice.
- Listener exceptions that are `Error`s rather than `Exception`s are not modelled. They would end the loop thread. Only `Crash` stands for uncaught failures.
- The `ExceptionHandler` implementations, shutdown and recovery listeners, `onChannelRecovered`, JMX exposure, metric names, `getUri`, `InetAddress` lookup and all logging are not modelled. They only log, delegate or expose values.
- Message bodies and envelope fields other than the delivery tag are not modelled.
- `JavaText.IsWhitespace` follows current Java. U+180E is not whitespace in it, although very old Java versions treated it as a space separator. Java strings are UTF-16; characters here are Unicode scalar values.
- `null` arguments are not modelled. Examples are a `null` host, user name or password.
