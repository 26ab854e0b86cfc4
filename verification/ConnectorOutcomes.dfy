/** What becomes of every attempt to connect (muduo/net/Connector.cc): which steps begin one and which end one, when
    its socket is handed over and when it is closed, and when a retry timer is set. Nothing is said in terms of the
    handlers. */
module ConnectorOutcomes {

  import opened Common
  import opened Connectors

  /** The attempt that the step begins, if it calls connect(2): start and restart want the connection, a timer or a
      queued start goes ahead if it is still wanted. */
  function Begins(s: Conn, step: Step): Option<Attempt> {
    if !Enabled(s, step) then None
    else
      match step
      case Start(inLoop, attempt) => if inLoop then Some(attempt) else None
      case Restart(attempt) => Some(attempt)
      case TimerFires(attempt) => if s.connect then Some(attempt) else None
      case RunQueued(attempt) => if s.queue[0] == RunStart && s.connect then Some(attempt) else None
      case _ => None
  }

  /** The watched socket is reported writable with no error event, no SO_ERROR and no self-connect. */
  predicate Succeeds(s: Conn, step: Step) {
    step.SocketReady? && s.watching && step.writable && !step.error && !step.soError && !step.selfConnect
  }

  /** It is reported with an error event, or writable with an SO_ERROR or connected to itself; or stop is carried
      out. */
  predicate Fails(s: Conn, step: Step) {
    && s.watching
    && match step
      case SocketReady(error, writable, soError, selfConnect) => error || (writable && (soError || selfConnect))
      case RunQueued(_) => s.queue != [] && s.queue[0] == RunStop
      case _ => false
  }

  predicate SetsTimer(s: Conn, step: Step) {
    (Fails(s, step) && s.connect) || Begins(s, step) == Some(Retryable)
  }

  function HandedAfter(s: Conn, step: Step, sock: Sock): seq<Sock> {
    if Succeeds(s, step) && s.connect then s.handed + [sock] else s.handed
  }

  function ClosedAfter(s: Conn, step: Step, sock: Sock): seq<Sock> {
    if Fails(s, step) || (Succeeds(s, step) && !s.connect) then s.closed + [sock]
    else if Begins(s, step) == Some(Retryable) || Begins(s, step) == Some(Fatal) then s.closed + [s.created]
    else s.closed
  }

  function TimersAfter(s: Conn, step: Step): int {
    s.timers - (if step.TimerFires? && Enabled(s, step) then 1 else 0) + (if SetsTimer(s, step) then 1 else 0)
  }

  /** The socket under way after the step. */
  function ConnectingAfter(s: Conn, step: Step): Option<Sock> {
    if Begins(s, step) == Some(InProgress) then Some(s.created)
    else if Succeeds(s, step) || Fails(s, step) then None
    else ConnectingSock(s)
  }

  function StateAfter(s: Conn, step: Step): State {
    if Begins(s, step) == Some(InProgress) then Connecting
    else if Begins(s, step).Some? || Fails(s, step) then Disconnected
    else if Succeeds(s, step) then Connected
    else s.state
  }

  predicate WantedAfter(s: Conn, step: Step) {
    if !Enabled(s, step) then s.connect
    else if step.Start? || step.Restart? then true
    else if step.Stop? then false
    else s.connect
  }

  function QueueAfter(s: Conn, step: Step): seq<Functor> {
    var left := if step.RunQueued? && Enabled(s, step) then s.queue[1..] else s.queue;
    if Succeeds(s, step) || Fails(s, step) then left + [RunResetChannel]
    else if Enabled(s, step) && step.Start? && !step.inLoop then left + [RunStart]
    else if Enabled(s, step) && step.Stop? then left + [RunStop]
    else left
  }

  /** How many retries there have been since start or restart. */
  function RetriesAfter(s: Conn, step: Step): nat {
    (if step.Restart? && Enabled(s, step) then 0 else |s.waits|) + (if SetsTimer(s, step) then 1 else 0)
  }

  predicate Becomes(s: Conn, step: Step, t: Conn) {
    var sock := if s.channel.Some? then s.channel.value else 0;
    && t.handed == HandedAfter(s, step, sock)
    && t.closed == ClosedAfter(s, step, sock)
    && t.timers == TimersAfter(s, step)
    && t.created == s.created + (if Begins(s, step).Some? then 1 else 0)
    && ConnectingSock(t) == ConnectingAfter(s, step)
    && t.state == StateAfter(s, step)
    && t.connect == WantedAfter(s, step)
    && t.queue == QueueAfter(s, step)
    && |t.waits| == RetriesAfter(s, step)
  }

  /** The channel is in the loop exactly while connecting, and an attempt begins with none. */
  lemma Attended(s: Conn)
    requires Inv(s)
    ensures s.watching <==> s.state == Connecting
    ensures s.watching ==> s.channel.Some?
    ensures s.timers > 0 || RunStart in s.queue || !s.started ==> s.state == Disconnected
  {
    CountZero(s.queue, RunStart);
    hide Accounted, BacksOff;
  }

  lemma ReportOutcome(s: Conn, error: bool, writable: bool, soError: bool, selfConnect: bool)
    requires Inv(s)
    ensures var step := SocketReady(error, writable, soError, selfConnect); Becomes(s, step, Apply(s, step))
  {
    Attended(s);
    hide Inv, Min;
  }

  lemma QueuedOutcome(s: Conn, attempt: Attempt)
    requires Inv(s)
    ensures Becomes(s, RunQueued(attempt), Apply(s, RunQueued(attempt)))
  {
    Attended(s);
    hide Inv, Min;
  }

  lemma StartOutcome(s: Conn, inLoop: bool, attempt: Attempt)
    requires Inv(s)
    ensures Becomes(s, Start(inLoop, attempt), Apply(s, Start(inLoop, attempt)))
  {
    Attended(s);
    hide Inv, Min;
  }

  lemma TimerOutcome(s: Conn, attempt: Attempt)
    requires Inv(s)
    ensures Becomes(s, TimerFires(attempt), Apply(s, TimerFires(attempt)))
  {
    Attended(s);
    hide Inv, Min;
  }

  lemma RestartOutcome(s: Conn, attempt: Attempt)
    requires Inv(s)
    ensures Becomes(s, Restart(attempt), Apply(s, Restart(attempt)))
  {
    Attended(s);
    hide Inv, Min;
  }

  /** What any step does, in every state that a run can reach. */
  lemma OutcomeExactly(s: Conn, step: Step)
    requires Inv(s)
    ensures Becomes(s, step, Apply(s, step))
  {
    match step
    case SocketReady(error, writable, soError, selfConnect) => ReportOutcome(s, error, writable, soError, selfConnect);
    case RunQueued(attempt) => QueuedOutcome(s, attempt);
    case Stop => hide Inv;
    case Start(inLoop, attempt) => StartOutcome(s, inLoop, attempt);
    case TimerFires(attempt) => TimerOutcome(s, attempt);
    case Restart(attempt) => RestartOutcome(s, attempt);
  }

  /** A socket is handed over in exactly those steps in which the watched socket is reported writable with no error
      event, no SO_ERROR and no self-connect while the connection is wanted; in every other step that ends an attempt it
      is closed, and a retry timer is set if and only if the attempt failed and the connection is still wanted. */
  lemma HandedExactly(s: Conn, step: Step)
    requires Inv(s) && s.watching
    ensures s.channel.Some?
    ensures var t, sock := Apply(s, step), s.channel.value;
            && (t.handed == s.handed + [sock] <==>
                step.SocketReady? && step.writable && !step.error && !step.soError && !step.selfConnect && s.connect)
            && (t.handed == s.handed || t.handed == s.handed + [sock])
            && (!t.watching ==> t.handed == s.handed + [sock] || t.closed == s.closed + [sock])
            && (t.timers > s.timers <==> Fails(s, step) && s.connect)
  {
    Attended(s);
    OutcomeExactly(s, step);
    NoAttemptWhileWatching(s, step);
    hide Inv, Apply;
  }

  lemma NoAttemptWhileWatching(s: Conn, step: Step)
    requires Inv(s) && s.watching
    ensures Begins(s, step).None? && !(step.TimerFires? && Enabled(s, step))
  {
    Attended(s);
    hide Inv;
  }
}
