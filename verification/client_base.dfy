/**
 * The lifecycle flags of `RabbitMQClientBase`: the `closed` flag, the
 * channel it closes, and the timeout / recovery-interval defaulting of its
 * constructor. Whether the auto-recovering channel is open is decided by
 * the broker library, so it appears here as a flag the environment sets.
 */
module ClientBase {
  import opened Wrappers
  import opened Settings

  /** `channelCloses` counts the calls of `channel.close()`. */
  datatype Client = Client(closed: bool, channelOpen: bool, channelCloses: nat)

  /** The `IOException` that `channel.close()` may throw out of `close`. */
  datatype CloseError = ChannelCloseFailed

  datatype CloseResult = CloseResult(client: Client, error: Option<CloseError>)

  /** A freshly constructed client: not closed, channel open. */
  function NewClient(): (c: Client)
    ensures !c.closed && c.channelOpen && c.channelCloses == 0
  {
    Client(false, true, 0)
  }

  /** `close()`: a no-op once closed; otherwise set `closed` first, then
      close the channel, whose failure (`closeFails`) propagates to the
      caller after `closed` is already set. */
  function Close(c: Client, closeFails: bool): (r: CloseResult)
    ensures r.client.closed
    ensures c.closed ==> r.client == c && r.error.None?
    ensures !c.closed ==> r.client.channelCloses == c.channelCloses + 1
    ensures r.error.Some? <==> !c.closed && closeFails
    ensures !c.closed && !closeFails ==> !r.client.channelOpen
  {
    if c.closed then CloseResult(c, None)
    else
      var marked := c.(closed := true, channelCloses := c.channelCloses + 1);
      if closeFails then CloseResult(marked, Some(ChannelCloseFailed))
      else CloseResult(marked.(channelOpen := false), None)
  }

  /** `closeQuietly()`: `close()` with any exception logged and dropped. The
      result type has no error channel. */
  function CloseQuietly(c: Client, closeFails: bool): (r: Client)
    ensures r == Close(c, closeFails).client
    ensures r.closed
  {
    match Close(c, closeFails)
    case CloseResult(after, _) => after
  }

  /** `isClosed()`: closed exactly when a further `close()` has nothing
      left to do. */
  function IsClosed(c: Client): (r: bool)
    ensures r <==> forall closeFails: bool :: Close(c, closeFails) == CloseResult(c, None)
  {
    assert !c.closed ==> Close(c, false).client != c;
    c.closed
  }

  /** `isAlive()`: not closed and the channel reports itself open. */
  function IsAlive(c: Client): (r: bool)
    ensures r ==> !IsClosed(c)
    ensures !IsClosed(c) ==> (r <==> c.channelOpen)
  {
    !IsClosed(c) && c.channelOpen
  }

  /** Everything that can happen to a client: the two close calls, and the
      broker library opening or losing the channel (recovery, network). */
  datatype ClientOp = CloseOp(closeFails: bool) | CloseQuietlyOp(closeFails: bool) | ChannelUp | ChannelDown

  function ApplyOp(c: Client, op: ClientOp): Client {
    match op
    case CloseOp(fails) => Close(c, fails).client
    case CloseQuietlyOp(fails) => CloseQuietly(c, fails)
    case ChannelUp => c.(channelOpen := true)
    case ChannelDown => c.(channelOpen := false)
  }

  function RunOps(c: Client, ops: seq<ClientOp>): Client
    decreases |ops|
  {
    if |ops| == 0 then c else RunOps(ApplyOp(c, ops[0]), ops[1..])
  }

  /** `close` is idempotent: a second close (plain or quiet) changes
      nothing and reports no error. */
  lemma CloseIdempotent(c: Client, first: bool, second: bool)
    ensures var once := Close(c, first).client;
            Close(once, second) == CloseResult(once, None)
            && CloseQuietly(once, second) == once
  {
  }

  /** `closed` is monotone and the channel is never closed again: once a
      client is closed, no sequence of operations reopens it, calls
      `channel.close()` again, or makes it alive. */
  lemma {:induction false} ClosedStaysClosed(c: Client, ops: seq<ClientOp>)
    requires c.closed
    ensures RunOps(c, ops).closed
    ensures RunOps(c, ops).channelCloses == c.channelCloses
    ensures !IsAlive(RunOps(c, ops))
    decreases |ops|
  {
    if |ops| > 0 {
      ClosedStaysClosed(ApplyOp(c, ops[0]), ops[1..]);
    }
  }

  /** Over any run from construction, the channel is closed by the client at
      most once, and exactly when the client is closed; a client that is not
      closed never called `channel.close()`. */
  lemma {:induction false} ChannelClosedAtMostOnce(c: Client, ops: seq<ClientOp>)
    requires c.channelCloses == if c.closed then 1 else 0
    ensures var t := RunOps(c, ops);
            t.channelCloses == if t.closed then 1 else 0
    decreases |ops|
  {
    if |ops| > 0 {
      ChannelClosedAtMostOnce(ApplyOp(c, ops[0]), ops[1..]);
    }
  }

  /** `isAlive` is the conjunction of "not closed" and "channel open": it
      follows the channel while the client is open and is false after any
      close. */
  lemma AliveIffOpen(c: Client, fails: bool)
    ensures !c.closed ==> (IsAlive(c) <==> c.channelOpen)
    ensures !IsAlive(Close(c, fails).client)
    ensures !IsAlive(CloseQuietly(c, fails))
  {
  }

  /** The connection settings of the client base's constructor. */
  datatype ClientSettings = ClientSettings(
    virtualHost: string,
    connectionTimeout: int32,
    recoveryInterval: int32,
    username: Option<string>,
    password: Option<string>)

  /** Timeout and recovery interval defaulting, and the credentials kept
      only when not blank. */
  function NewClientSettings(virtualHost: string, username: string, password: string,
                             connectionTimeout: int32, recoveryTimeout: int32): (r: ClientSettings)
    ensures r.connectionTimeout > 0 && r.recoveryInterval > 0
    ensures connectionTimeout > 0 ==> r.connectionTimeout == connectionTimeout
    ensures connectionTimeout <= 0 ==> r.connectionTimeout == 5000
    ensures recoveryTimeout > 0 ==> r.recoveryInterval == recoveryTimeout
    ensures recoveryTimeout <= 0 ==> r.recoveryInterval == 5000
    ensures r.virtualHost == virtualHost
    ensures r.username == Credential(username) && r.password == Credential(password)
  {
    ClientSettings(virtualHost, EffectiveMillis(connectionTimeout), EffectiveMillis(recoveryTimeout),
                   Credential(username), Credential(password))
  }
}
