/** The `CANJaguarServer` object of CANJagServer/CANJaguarServer.cpp as a
    sequential state machine. The two message queues are values, the
    response semaphore is a flag, and the worker task is the `Step`
    function, one iteration of `RunLoop` per call. Calls that would wait
    return `Blocked`, or `None` for the plain sends, together with the state
    they wait in: in a sequential model they only make progress once some
    other party (the worker, or the caller holding the semaphore) has
    moved. */
module CanJagServer {
  import opened Wrappers
  import opened Ints
  import opened JaguarUtils
  import opened Messages
  import opened Registry
  import opened CommandQueue
  import opened Dispatch
  import opened Sweep

  /** The server's fields. A `None` queue or semaphore is a NULL handle;
      `gate` is the response semaphore, `Some(true)` while a Get holds it.
      `syncLog` and `retired` record the calls made to the driver library
      that do not touch a device of the list: sync-group updates, and the
      drivers disabled and deleted by Remove. */
  datatype Server = Server(
    running: bool,
    sendError: bool,
    sendQueue: Option<Queue<Command>>,
    replyQueue: Option<seq<Reply>>,
    gate: Option<bool>,
    jags: seq<Record>,
    checkJags: bool,
    cursor: nat,
    syncLog: seq<Uint8>,
    retired: seq<Driver>)

  ghost predicate Valid(s: Server)
  {
    && (s.sendQueue.Some? ==> WithinCapacity(s.sendQueue.value))
    && DistinctIds(s.jags)
  }

  /** The constructor: not running, no devices, no queues yet.
      `SendError` is left uninitialised by the source, so its first value is
      an input. */
  function New(doBrownOutCheck: bool, sendError: bool): (s: Server)
    ensures Valid(s) && !s.running && s.jags == [] && s.checkJags == doBrownOutCheck
  {
    Server(false, sendError, None, None, None, [], doBrownOutCheck, 0, [], [])
  }

  /** `SetBrownOutCheckEnabled`. */
  function SetBrownOutCheckEnabled(s: Server, doBrownOutCheck: bool): (r: Server)
    ensures r.checkJags == doBrownOutCheck && r.(checkJags := s.checkJags) == s
  {
    s.(checkJags := doBrownOutCheck)
  }

  // ---------------------------------------------------------------------
  // Start

  /** Which of the resources `Start` asks the operating system for are
      granted: the command queue, the response queue, the semaphore, and
      the worker task. */
  datatype Allocation = Allocation(sendQueue: bool, replyQueue: bool, gate: bool, task: bool)

  predicate AllGranted(a: Allocation)
  {
    a.sendQueue && a.replyQueue && a.gate && a.task
  }

  /** The server after a successful `Start`: fresh queues of `capacity`
      slots, a free semaphore, no send error, and a new `RunLoop` whose
      sweep cursor starts at 0. */
  function Started(s: Server, capacity: nat): Server
  {
    s.(running := true, sendError := false, sendQueue := Some(Create(capacity)),
       replyQueue := Some([]), gate := Some(false), cursor := 0)
  }

  /** `Start` with the missing `return false` restored: it reports success
      exactly when every resource was granted, and on failure releases what
      it had allocated. */
  function Start(s: Server, capacity: nat, a: Allocation): (r: (bool, Server))
    requires Valid(s)
    ensures Valid(r.1)
    ensures r.0 <==> AllGranted(a)
    ensures r.0 ==> r.1 == Started(s, capacity)
    ensures !r.0 ==> r.1.running == s.running && r.1.sendQueue.None?
    ensures !r.0 ==> r.1.(sendQueue := s.sendQueue, replyQueue := s.replyQueue, gate := s.gate) == s
    ensures !r.0 && a.sendQueue ==> r.1.replyQueue.None?
    ensures !r.0 && a.sendQueue && a.replyQueue ==> r.1.gate.None?
    ensures !a.sendQueue ==> r.1.replyQueue == s.replyQueue && r.1.gate == s.gate
    ensures r.1.jags == s.jags
  {
    if !a.sendQueue then (false, s.(sendQueue := None))
    else if !a.replyQueue then (false, s.(sendQueue := None, replyQueue := None))
    else if !a.gate then (false, s.(sendQueue := None, replyQueue := None, gate := None))
    else if !a.task then (false, s.(sendQueue := None, replyQueue := None, gate := None))
    else (true, Started(s, capacity))
  }

  /** `Start` as written: when the response queue cannot be created it
      deletes the command queue but goes on, and reports success. */
  function StartAsWritten(s: Server, capacity: nat, a: Allocation): (r: (bool, Server))
    requires Valid(s)
    ensures Valid(r.1)
    ensures a.replyQueue ==> r == Start(s, capacity, a)
  {
    if a.sendQueue && !a.replyQueue then
      if !a.gate || !a.task then (false, s.(sendQueue := None, replyQueue := None, gate := None))
      else (true, Started(s, capacity).(sendQueue := None, replyQueue := None))
    else Start(s, capacity, a)
  }

  /** The as-written `Start` reports success on a server that can accept
      no command: its command queue is NULL. */
  lemma StartReportsSuccessWithoutQueues(s: Server, capacity: nat)
    requires Valid(s)
    ensures var r := StartAsWritten(s, capacity, Allocation(true, false, true, true));
      r.0 && r.1.running && r.1.sendQueue.None? && r.1.replyQueue.None?
    ensures !Start(s, capacity, Allocation(true, false, true, true)).0
  {
  }

  // ---------------------------------------------------------------------
  // Commands from callers

  /** A caller's request that is fire-and-forget (every public command
      method except `GetJag`). */
  datatype ServerCall =
    | DisableCall(id: CanId)
    | EnableCall(id: CanId)
    | SetCall(id: CanId, speed: real, syncGroup: Uint8)
    | AddCall(id: CanId, config: ConfigInfo)
    | RemoveCall(id: CanId)
    | ConfigCall(id: CanId, config: ConfigInfo)
    | SyncCall(group: Uint8)

  /** The message each method builds; payloads are always allocated. */
  function CommandOf(call: ServerCall): (c: Command)
  {
    match call
    case DisableCall(id) => Disable(id)
    case EnableCall(id) => Enable(id)
    case SetCall(id, speed, g) => Set(Some(SetPayload(id, speed, g)))
    case AddCall(id, config) => Add(Some(ConfigPayload(id, config)))
    case RemoveCall(id) => Remove(id)
    case ConfigCall(id, config) => Config(Some(ConfigPayload(id, config)))
    case SyncCall(g) => UpdateSyncGroup(g)
  }

  /** Recovers the call from a queued message; the inverse of `CommandOf`. */
  function CallOf(c: Command): (r: Option<ServerCall>)
    ensures c.Get? || c.Nop? || c.Unrecognised? ==> r.None?
    ensures !HasPayload(c) && (c.Set? || c.Add? || c.Config?) ==> r.None?
  {
    match c
    case Disable(id) => Some(DisableCall(id))
    case Enable(id) => Some(EnableCall(id))
    case Set(p) => if p.None? then None else Some(SetCall(p.value.id, p.value.speed, p.value.syncGroup))
    case Add(p) => if p.None? then None else Some(AddCall(p.value.id, p.value.config))
    case Remove(id) => Some(RemoveCall(id))
    case Config(p) => if p.None? then None else Some(ConfigCall(p.value.id, p.value.config))
    case UpdateSyncGroup(g) => Some(SyncCall(g))
    case _ => None
  }

  /** Every call is encoded as a distinct, well-formed message: decoding a
      call's message gives the call back, and it is never a Get. */
  lemma CommandOfRoundTrip(call: ServerCall)
    ensures CallOf(CommandOf(call)) == Some(call)
    ensures !CommandOf(call).Get?
    ensures CommandOf(call).Set? || CommandOf(call).Add? || CommandOf(call).Config? ==> HasPayload(CommandOf(call))
  {
  }

  /** The priority each method sends with. Disable and UpdateSyncGroup
      (like Get) are urgent and wait forever for room; the others are
      normal and give up after `CommandWait` ticks. */
  function PriorityOf(call: ServerCall): Priority
  {
    if call.DisableCall? || call.SyncCall? then Urgent else Normal
  }

  /** Sending one command: `None` when the sender waits forever (urgent,
      queue full). Otherwise `SendError` is overwritten with whether this
      send failed, whatever it held before: a NULL queue fails at once and a
      full queue fails once the normal timeout expires. Nothing else in the
      server changes. */
  function Issue(s: Server, call: ServerCall): (r: Option<Server>)
    requires Valid(s)
    ensures var full := s.sendQueue.Some? && Count(s.sendQueue.value) == s.sendQueue.value.capacity;
      && (r.None? <==> PriorityOf(call) == Urgent && full)
      && (r.Some? ==> (r.value.sendError <==> s.sendQueue.None? || full))
    ensures r.Some? ==> Valid(r.value) && r.value.(sendError := s.sendError, sendQueue := s.sendQueue) == s
    ensures r.Some? && r.value.sendError ==> r.value.sendQueue == s.sendQueue
    ensures r.Some? && !r.value.sendError ==> s.sendQueue.Some? && r.value.sendQueue.Some?
    ensures r.Some? && !r.value.sendError ==> r.value.sendQueue.value.capacity == s.sendQueue.value.capacity
    ensures r.Some? && !r.value.sendError && PriorityOf(call) == Normal ==>
      Contents(r.value.sendQueue.value) == Contents(s.sendQueue.value) + [CommandOf(call)]
    ensures r.Some? && !r.value.sendError && PriorityOf(call) == Urgent ==>
      Contents(r.value.sendQueue.value) == [CommandOf(call)] + Contents(s.sendQueue.value)
  {
    if s.sendQueue.None? then Some(s.(sendError := true))
    else match Send(s.sendQueue.value, CommandOf(call), PriorityOf(call))
      case None => if PriorityOf(call) == Urgent then None else Some(s.(sendError := true))
      case Some(q) => Some(s.(sendError := false, sendQueue := Some(q)))
  }

  /** Into an empty queue with room, any call is queued as its only
      command and the flag is cleared. */
  lemma IssueIntoEmptyQueue(s: Server, call: ServerCall)
    requires Valid(s) && s.sendQueue.Some? && Contents(s.sendQueue.value) == []
    requires 0 < s.sendQueue.value.capacity
    ensures Issue(s, call).Some?
    ensures var s1 := Issue(s, call).value;
      && !CheckSendError(s1) && s1.jags == s.jags && s1.sendQueue.Some?
      && Contents(s1.sendQueue.value) == [CommandOf(call)]
  {
    assert Count(s.sendQueue.value) == 0;
  }

  /** `CheckSendError`. */
  function CheckSendError(s: Server): bool
  {
    s.sendError
  }

  /** `ClearSendError`: the flag is false and nothing else changes. */
  function ClearSendError(s: Server): (r: Server)
    ensures !CheckSendError(r) && r.(sendError := s.sendError) == s
  {
    s.(sendError := false)
  }

  /** The flag is not sticky: after two sends it says whether the second
      failed, whatever became of the first. */
  lemma SendErrorReflectsLastSend(s: Server, a: ServerCall, b: ServerCall)
    requires Valid(s) && Issue(s, a).Some?
    requires Issue(Issue(s, a).value, b).Some?
    ensures var s1 := Issue(s, a).value;
      CheckSendError(Issue(s1, b).value) <==>
        (s1.sendQueue.None? || Count(s1.sendQueue.value) == s1.sendQueue.value.capacity)
  {
  }

  /** A normal send to a full queue fails; once the worker has taken a
      command off the queue, the next send succeeds and the flag no longer
      shows the failure. */
  lemma LaterSuccessClearsError(s: Server, a: ServerCall, b: ServerCall, elapsed: bool)
    requires Valid(s) && s.sendQueue.Some?
    requires 0 < Count(s.sendQueue.value) == s.sendQueue.value.capacity
    requires PriorityOf(a) == Normal
    ensures Issue(s, a).Some? && CheckSendError(Issue(s, a).value)
    ensures var s2 := Step(Issue(s, a).value, elapsed);
      Issue(s2, b).Some? && !CheckSendError(Issue(s2, b).value)
  {
    var s1 := Issue(s, a).value;
    var s2 := Step(s1, elapsed);
    assert Count(s2.sendQueue.value) == |Contents(s2.sendQueue.value)| == Count(s.sendQueue.value) - 1;
  }

  // ---------------------------------------------------------------------
  // The worker

  /** The worker's handling of one received command: the device list is
      updated as `Handle` says, the replies are put on the response queue
      (a send to a NULL response queue is lost), and the sync-group updates
      and retired drivers are recorded. */
  function Deliver(s: Server, c: Command): (r: Server)
    requires Valid(s)
    ensures Valid(r)
    ensures r.jags == Handle(s.jags, c).reg
    ensures c.Get? && s.replyQueue.Some? ==> r.replyQueue == Some(s.replyQueue.value + [GetReply(s.jags, c.id)])
    ensures !c.Get? || s.replyQueue.None? ==> r.replyQueue == s.replyQueue
    ensures r.syncLog == s.syncLog + (if c.UpdateSyncGroup? then [c.group] else [])
    ensures c.Remove? && c.id in Ids(s.jags) ==>
      r.retired == s.retired + [s.jags[FirstMatch(s.jags, c.id).value].jag.(enabled := false)]
    ensures !(c.Remove? && c.id in Ids(s.jags)) ==> r.retired == s.retired
    ensures r.(jags := s.jags, replyQueue := s.replyQueue, syncLog := s.syncLog, retired := s.retired) == s
  {
    var e := Handle(s.jags, c);
    s.(jags := e.reg,
       replyQueue := if s.replyQueue.Some? && e.replies != [] then Some(s.replyQueue.value + e.replies) else s.replyQueue,
       syncLog := s.syncLog + (if e.syncUpdate.Some? then [e.syncUpdate.value] else []),
       retired := s.retired + (if e.retired.Some? then [e.retired.value] else []))
  }

  /** One iteration of `RunLoop`: take the next command, if any, and
      handle it; then run the sweep when checking is on and `elapsed` says
      the check interval has passed. With a NULL command queue the worker
      has returned at once, and nothing happens. */
  function Step(s: Server, elapsed: bool): (r: Server)
    requires Valid(s)
    ensures Valid(r)
    ensures s.sendQueue.None? ==> r == s
    ensures s.sendQueue.Some? ==> (r.sendQueue.Some? &&
      var before := Contents(s.sendQueue.value);
      Contents(r.sendQueue.value) == if before == [] then [] else before[1..])
    ensures r.running == s.running && r.sendError == s.sendError && r.gate == s.gate && r.checkJags == s.checkJags
    ensures Ids(r.jags) == Ids(Step0(s).jags) && r.replyQueue == Step0(s).replyQueue
    ensures s.sendQueue.Some? ==>
      var sw := SweepStep(Step0(s).jags, Step0(s).cursor, elapsed && s.checkJags);
      r.jags == sw.reg && r.cursor == sw.cursor
    ensures !(elapsed && s.checkJags) ==> r == Step0(s)
    ensures r.syncLog == Step0(s).syncLog && r.retired == Step0(s).retired
    ensures s.sendQueue.Some? ==> r.sendQueue.value.capacity == s.sendQueue.value.capacity
  {
    if s.sendQueue.None? then s
    else
      var s1 := Step0(s);
      var sw := SweepStep(s1.jags, s1.cursor, elapsed && s1.checkJags);
      s1.(jags := sw.reg, cursor := sw.cursor)
  }

  /** The first half of an iteration: receiving and handling a command. */
  function Step0(s: Server): (r: Server)
    requires Valid(s)
    ensures Valid(r)
    ensures s.sendQueue.None? ==> r == s
    ensures s.sendQueue.Some? ==> (r.sendQueue.Some? &&
      var before := Contents(s.sendQueue.value);
      Contents(r.sendQueue.value) == if before == [] then [] else before[1..])
    ensures s.sendQueue.Some? && Contents(s.sendQueue.value) != [] ==>
      r == Deliver(s.(sendQueue := r.sendQueue), Contents(s.sendQueue.value)[0])
    ensures s.sendQueue.Some? && Contents(s.sendQueue.value) == [] ==> r == s
    ensures s.sendQueue.Some? ==> r.sendQueue.value.capacity == s.sendQueue.value.capacity
  {
    if s.sendQueue.None? then s
    else match Receive(s.sendQueue.value)
      case None => s
      case Some((c, q)) => Deliver(s.(sendQueue := Some(q)), c)
  }

  /** An iteration with a command waiting changes the device identifiers
      exactly as handling that command does; the sweep never does. */
  lemma StepHandlesHead(s: Server, elapsed: bool)
    requires Valid(s) && s.sendQueue.Some? && Contents(s.sendQueue.value) != []
    ensures Ids(Step(s, elapsed).jags) == Ids(Handle(s.jags, Contents(s.sendQueue.value)[0]).reg)
  {
    var s0 := Step0(s);
    assert s0.jags == Handle(s.jags, Contents(s.sendQueue.value)[0]).reg;
  }

  /** Repeated iterations keep the server well formed, and in particular
      keep the device identifiers distinct. */
  function Run(s: Server, elapsed: seq<bool>): (r: Server)
    requires Valid(s)
    ensures Valid(r) && DistinctIds(r.jags)
    ensures r.gate == s.gate && r.running == s.running
    decreases |elapsed|
  {
    if elapsed == [] then s else Run(Step(s, elapsed[0]), elapsed[1..])
  }

  // ---------------------------------------------------------------------
  // GetJag

  /** Where a `GetJag` call stands: waiting (on the semaphore, for room
      in the command queue, or for the worker's reply) in the given server
      state, waiting for the reply after its Get was queued, or returned
      with a value. */
  datatype GetStep = Blocked(server: Server) | Waiting(server: Server) | Returned(server: Server, value: real)

  /** The semaphore given back (a NULL semaphore stays NULL). */
  function Release(gate: Option<bool>): Option<bool>
  {
    if gate.Some? then Some(false) else None
  }

  /** The reply check of `GetJag`: the reading is returned only for a
      non-NULL reply with a payload, the Get command code and the requested
      identifier; anything else gives 0. */
  function ValidateReply(reply: Option<Reply>, id: CanId): (v: real)
    ensures reply.None? || reply.value.data.None? || reply.value.command != GetCode ==> v == 0.0
    ensures reply.Some? && reply.value.data.Some? && reply.value.data.value.id != id ==> v == 0.0
    ensures reply.Some? && reply.value.command == GetCode && reply.value.data.Some? && reply.value.data.value.id == id ==>
      v == reply.value.data.value.speed
  {
    match reply
    case None => 0.0
    case Some(Reply(command, data)) =>
      if data.None? || command != GetCode || data.value.id != id then 0.0 else data.value.speed
  }

  /** The first half of `GetJag`: take the semaphore, then send an urgent
      Get. `releaseOnError` says whether a failed send gives the semaphore
      back; the source does not. */
  function GetJagRequestWith(s: Server, id: CanId, releaseOnError: bool): (g: GetStep)
    requires Valid(s)
    ensures g.Waiting? ==> Valid(g.server)
  {
    if s.gate == Some(true) then Blocked(s)
    else GetJagSendWith(s.(gate := if s.gate.Some? then Some(true) else None), id, releaseOnError)
  }

  /** The send of `GetJag`, made with the semaphore already taken. It waits
      forever for room, so a full queue leaves the caller `Blocked` in `s`,
      from where the send is tried again once the worker has made room. */
  function GetJagSendWith(s: Server, id: CanId, releaseOnError: bool): (g: GetStep)
    requires Valid(s)
    ensures g.Waiting? ==> Valid(g.server)
  {
    if s.sendQueue.None? then
      Returned(s.(sendError := true, gate := if releaseOnError then Release(s.gate) else s.gate), 0.0)
    else match Send(s.sendQueue.value, Get(id), Urgent)
      case None => Blocked(s)
      case Some(q) => Waiting(s.(sendError := false, sendQueue := Some(q)))
  }

  /** The second half of `GetJag`: wait for the worker's reply, give the
      semaphore back and check the reply. A NULL response queue makes the
      receive fail, and `releaseOnError` again says whether the semaphore is
      given back then. */
  function GetJagCompleteWith(s: Server, id: CanId, releaseOnError: bool): (g: GetStep)
  {
    match s.replyQueue
    case None => Returned(if releaseOnError then s.(gate := Release(s.gate)) else s, 0.0)
    case Some(replies) =>
      if replies == [] then Blocked(s)
      else Returned(s.(replyQueue := Some(replies[1..]), gate := Release(s.gate)), ValidateReply(Some(replies[0]), id))
  }

  /** `GetJag` with the semaphore given back on every early return. */
  function GetJagRequest(s: Server, id: CanId): (g: GetStep)
    requires Valid(s)
    ensures s.gate == Some(true) ==> g == Blocked(s)
    ensures g.Returned? ==> g.value == 0.0 && g.server.sendError && g.server.gate == s.gate
    ensures g.Returned? <==> s.gate != Some(true) && s.sendQueue.None?
    ensures g.Waiting? <==> s.gate != Some(true) && s.sendQueue.Some? && Count(s.sendQueue.value) < s.sendQueue.value.capacity
    ensures s.gate != Some(true) && s.sendQueue.Some? && Count(s.sendQueue.value) == s.sendQueue.value.capacity ==>
      g == Blocked(s.(gate := if s.gate.Some? then Some(true) else None))
    ensures g.Waiting? ==> !g.server.sendError && g.server.gate == (if s.gate.Some? then Some(true) else None)
    ensures g.Waiting? ==> g.server.(sendError := s.sendError, sendQueue := s.sendQueue, gate := s.gate) == s
    ensures g.Waiting? ==> g.server.sendQueue.Some? && Contents(g.server.sendQueue.value) == [Get(id)] + Contents(s.sendQueue.value)
    ensures g.Waiting? ==> g.server.sendQueue.value.capacity == s.sendQueue.value.capacity
  {
    assert s.gate.Some? && s.gate != Some(true) ==> !s.gate.value;
    GetJagRequestWith(s, id, true)
  }

  /** The send of `GetJag` with the semaphore held: it blocks while the
      queue is full, queues the Get at the head once there is room, and
      gives the semaphore back when the queue is NULL. */
  function GetJagSend(s: Server, id: CanId): (g: GetStep)
    requires Valid(s)
    ensures s.sendQueue.None? ==> g == Returned(s.(sendError := true, gate := Release(s.gate)), 0.0)
    ensures s.sendQueue.Some? ==> (g.Blocked? <==> Count(s.sendQueue.value) == s.sendQueue.value.capacity)
    ensures g.Blocked? ==> g.server == s
    ensures g.Waiting? ==>
      && g.server.sendQueue.Some? && !g.server.sendError
      && Contents(g.server.sendQueue.value) == [Get(id)] + Contents(s.sendQueue.value)
      && g.server.sendQueue.value.capacity == s.sendQueue.value.capacity
      && g.server.(sendError := s.sendError, sendQueue := s.sendQueue) == s
  {
    GetJagSendWith(s, id, true)
  }

  /** A Get waiting for room holds the semaphore, so `Stop` waits with it;
      once the worker has taken a command off the queue, the retried send
      queues the Get at the head. */
  lemma BlockedGetHoldsStop(s: Server, id: CanId, elapsed: bool)
    requires Valid(s) && s.gate == Some(false) && s.sendQueue.Some?
    requires 0 < Count(s.sendQueue.value) == s.sendQueue.value.capacity
    ensures GetJagRequest(s, id).Blocked?
    ensures var b := GetJagRequest(s, id).server;
      && b.gate == Some(true)
      && Stop(b).None?
      && GetJagSend(Step(b, elapsed), id).Waiting?
  {
    var b := GetJagRequest(s, id).server;
    var w := Step(b, elapsed);
    assert Count(w.sendQueue.value) == |Contents(w.sendQueue.value)| == Count(s.sendQueue.value) - 1;
  }

  function GetJagComplete(s: Server, id: CanId): (g: GetStep)
    ensures g.Returned? ==> g.server.gate == Release(s.gate)
    ensures g.Blocked? <==> s.replyQueue == Some([])
    ensures g.Blocked? ==> g.server == s
  {
    GetJagCompleteWith(s, id, true)
  }

  /** `GetJag` as written. */
  function GetJagRequestAsWritten(s: Server, id: CanId): (g: GetStep)
    requires Valid(s)
    ensures s.sendQueue.Some? ==> g == GetJagRequest(s, id)
  {
    GetJagRequestWith(s, id, false)
  }

  function GetJagCompleteAsWritten(s: Server, id: CanId): (g: GetStep)
    ensures s.replyQueue != None ==> g == GetJagComplete(s, id)
  {
    GetJagCompleteWith(s, id, false)
  }

  /** The worker answers a Get at the head of the command queue with
      exactly one reply. */
  lemma StepAnswersGet(w: Server, id: CanId, elapsed: bool)
    requires Valid(w) && w.sendQueue.Some? && w.replyQueue == Some([])
    requires Contents(w.sendQueue.value) != [] && Contents(w.sendQueue.value)[0] == Get(id)
    ensures Step(w, elapsed).replyQueue == Some([GetReply(w.jags, id)])
    ensures Contents(Step(w, elapsed).sendQueue.value) == Contents(w.sendQueue.value)[1..]
  {
    var s0 := Step0(w);
    var d := w.(sendQueue := s0.sendQueue);
    assert s0 == Deliver(d, Get(id));
    assert d.replyQueue.value + [GetReply(d.jags, id)] == [GetReply(w.jags, id)];
  }

  /** The reply to a Get carries the reading of the first device with
      the identifier, and passes the caller's check. */
  lemma GetReplyValidates(reg: seq<Record>, id: CanId)
    ensures ValidateReply(Some(GetReply(reg, id)), id) ==
      match FirstMatch(reg, id)
      case Some(i) => reg[i].jag.value
      case None => 0.0
  {
    match FirstMatch(reg, id)
    case Some(i) =>
    case None => assert id !in Ids(reg);
  }

  /** A Get is answered with the reading of the first device with that
      identifier, or 0 when there is none, whatever commands were still
      waiting: the urgent Get is handled before all of them. Afterwards the
      semaphore is free again. */
  lemma GetJagRoundTrip(s: Server, id: CanId, elapsed: bool)
    requires Valid(s) && s.sendQueue.Some? && s.replyQueue == Some([]) && s.gate == Some(false)
    requires Count(s.sendQueue.value) < s.sendQueue.value.capacity
    ensures GetJagRequest(s, id).Waiting?
    ensures var w := GetJagRequest(s, id).server;
      var c := GetJagComplete(Step(w, elapsed), id);
      && c.Returned?
      && c.server.gate == Some(false)
      && c.server.replyQueue == Some([])
      && c.value == (match FirstMatch(s.jags, id)
                     case Some(i) => s.jags[i].jag.value
                     case None => 0.0)
      && c.server.sendQueue.Some?
      && Contents(c.server.sendQueue.value) == Contents(s.sendQueue.value)
  {
    var w := GetJagRequest(s, id).server;
    assert w.jags == s.jags && w.replyQueue == Some([]) && w.gate == Some(true);
    assert Contents(w.sendQueue.value) == [Get(id)] + Contents(s.sendQueue.value);
    StepAnswersGet(w, id, elapsed);
    var s1 := Step(w, elapsed);
    assert s1.gate == Some(true);
    assert ([Get(id)] + Contents(s.sendQueue.value))[1..] == Contents(s.sendQueue.value);
    assert Contents(s1.sendQueue.value) == Contents(s.sendQueue.value);
    CompleteTakesReply(s1, id);
    var c := GetJagComplete(s1, id);
    assert c.server.sendQueue == s1.sendQueue;
    GetReplyValidates(s.jags, id);
  }

  /** With one reply waiting, the caller takes it, frees the semaphore and
      returns what the reply check gives. */
  lemma CompleteTakesReply(s: Server, id: CanId)
    requires s.replyQueue.Some? && |s.replyQueue.value| == 1
    ensures GetJagComplete(s, id) ==
      Returned(s.(replyQueue := Some([]), gate := Release(s.gate)), ValidateReply(Some(s.replyQueue.value[0]), id))
  {
    assert s.replyQueue.value[1..] == [];
  }

  /** While one caller waits for its reply, a second `GetJag` waits too. */
  lemma SecondGetWaits(s: Server, a: CanId, b: CanId)
    requires Valid(s) && GetJagRequest(s, a).Waiting? && s.gate.Some?
    ensures GetJagRequest(GetJagRequest(s, a).server, b).Blocked?
  {
  }

  // ---------------------------------------------------------------------
  // Stop

  /** The number of payloads freed along with the messages of `cs`. */
  function PayloadCount(cs: seq<Command>): (n: nat)
    ensures n <= |cs|
  {
    if cs == [] then 0
    else PayloadCount(cs[..|cs| - 1]) + (if HasPayload(cs[|cs| - 1]) then 1 else 0)
  }

  /** What `Stop` leaves behind: the stopped server, the messages it
      drained from the command queue in order, and how many payloads it
      freed with them. */
  datatype Stopped = Stopped(server: Server, drained: seq<Command>, payloadFrees: nat)

  /** `Stop`: wait for the semaphore (so no Get is cut off while waiting
      for its reply), stop the worker, free every queued message with its
      payload, and delete the queues and the semaphore. `None` while a Get
      holds the semaphore. */
  function Stop(s: Server): (r: Option<Stopped>)
    ensures r.None? <==> s.gate == Some(true)
    ensures r.Some? ==> var t := r.value.server;
      && !t.running && t.sendQueue.None? && t.replyQueue.None? && t.gate.None?
      && t.jags == s.jags && t.sendError == s.sendError && t.checkJags == s.checkJags
      && t.cursor == s.cursor && t.syncLog == s.syncLog && t.retired == s.retired
    ensures r.Some? ==> r.value.drained == (if s.sendQueue.Some? then Contents(s.sendQueue.value) else [])
    ensures r.Some? ==> r.value.payloadFrees == PayloadCount(r.value.drained)
  {
    if s.gate == Some(true) then None
    else
      var drained := if s.sendQueue.Some? then Contents(s.sendQueue.value) else [];
      Some(Stopped(s.(running := false, sendQueue := None, replyQueue := None, gate := None),
                   drained, PayloadCount(drained)))
  }

  /** The drain loop of `Stop`: receive until the queue is empty, freeing
      each message and, for Set, Add and Config, its payload. */
  method DrainQueue(q: Queue<Command>) returns (drained: seq<Command>, payloadFrees: nat)
    requires WithinCapacity(q)
    ensures drained == Contents(q)
    ensures payloadFrees == PayloadCount(drained)
  {
    drained := [];
    payloadFrees := 0;
    var rest := q;
    while true
      invariant WithinCapacity(rest)
      invariant drained + Contents(rest) == Contents(q)
      invariant payloadFrees == PayloadCount(drained)
      decreases |Contents(rest)|
    {
      var next := Receive(rest);
      if next.None? {
        assert drained == Contents(q);
        return;
      }
      var (m, rest') := next.value;
      assert (drained + [m])[..|drained|] == drained;
      payloadFrees := payloadFrees + (if HasPayload(m) then 1 else 0);
      drained := drained + [m];
      rest := rest';
    }
  }

  /** A Get that meets a NULL command queue returns without giving the
      semaphore back, and from then on a `GetJag` or `Stop` from any other
      task waits forever (the semaphore is a mutex, which the task that
      leaked it could still take again). `StartAsWritten` produces exactly that server when the
      response queue cannot be created; the corrected `GetJagRequest` gives
      the semaphore back and `Stop` goes through. */
  lemma GateLeakBlocksStop(s: Server, capacity: nat, id: CanId, other: CanId)
    requires Valid(s)
    ensures var started := StartAsWritten(s, capacity, Allocation(true, false, true, true)).1;
      var g := GetJagRequestAsWritten(started, id);
      && g.Returned? && g.value == 0.0 && CheckSendError(g.server)
      && g.server.gate == Some(true)
      && GetJagRequestAsWritten(g.server, other).Blocked?
      && Stop(g.server).None?
    ensures var started := StartAsWritten(s, capacity, Allocation(true, false, true, true)).1;
      var g := GetJagRequest(started, id);
      g.Returned? && Stop(g.server).Some?
  {
  }
}
