/** `AsynchCANJaguar` (CANJagServer/AsynchCANJaguar.cpp): a speed
    controller object that owns one device identifier on a server and turns
    each of its calls into exactly one server request for that identifier. */
module Facade {
  import opened Wrappers
  import opened Ints
  import opened JaguarUtils
  import opened Messages
  import opened Registry
  import opened CommandQueue
  import opened CanJagServer
  import Dispatch

  /** The facade's fields: the server is implicit, the identifier is kept. */
  datatype AsynchJaguar = AsynchJaguar(id: CanId)

  /** The facade's public operations, constructor and destructor included.
      `UpdateSyncGroup` is static and names no device. */
  datatype FacadeOp =
    | Construct(config: ConfigInfo)
    | Destroy
    | EnableOp
    | DisableOp
    | SetOp(speed: real, syncGroup: Uint8)
    | GetOp
    | ConfigureOp(config: ConfigInfo)
    | PIDWrite(output: real)
    | UpdateSyncGroupOp(group: Uint8)

  /** A request reaching the server: one of its command methods, or `GetJag`. */
  datatype Request = Call(call: ServerCall) | Read(id: CanId)

  /** The device a request is about, if any. */
  function Target(r: Request): Option<CanId>
  {
    match r
    case Read(id) => Some(id)
    case Call(c) => if c.SyncCall? then None else Some(c.id)
  }

  /** The one request each operation makes. `SetOp` forwards the speed but
      not the sync group, which falls back to the server's default of 0;
      `PIDWrite` is `SetOp` with that default. */
  function Forward(f: AsynchJaguar, op: FacadeOp): (r: Request)
    ensures !op.UpdateSyncGroupOp? ==> Target(r) == Some(f.id)
    ensures op.UpdateSyncGroupOp? ==> r == Call(SyncCall(op.group))
    ensures r.Read? <==> op.GetOp?
    ensures op.SetOp? ==> r == Call(SetCall(f.id, op.speed, 0))
    ensures op.PIDWrite? ==> r == Call(SetCall(f.id, op.output, 0))
  {
    match op
    case Construct(config) => Call(AddCall(f.id, config))
    case Destroy => Call(RemoveCall(f.id))
    case EnableOp => Call(EnableCall(f.id))
    case DisableOp => Call(DisableCall(f.id))
    case SetOp(speed, _) => Call(SetCall(f.id, speed, 0))
    case GetOp => Read(f.id)
    case ConfigureOp(config) => Call(ConfigCall(f.id, config))
    case PIDWrite(output) => Call(SetCall(f.id, output, 0))
    case UpdateSyncGroupOp(g) => Call(SyncCall(g))
  }

  /** Each operation reaches the server method of the matching kind, and the
      commands it queues decode back to that call. */
  lemma ForwardMatchesKind(f: AsynchJaguar, op: FacadeOp)
    ensures op.Construct? ==> Forward(f, op) == Call(AddCall(f.id, op.config))
    ensures op.Destroy? ==> Forward(f, op) == Call(RemoveCall(f.id))
    ensures op.EnableOp? ==> Forward(f, op) == Call(EnableCall(f.id))
    ensures op.DisableOp? ==> Forward(f, op) == Call(DisableCall(f.id))
    ensures op.ConfigureOp? ==> Forward(f, op) == Call(ConfigCall(f.id, op.config))
    ensures Forward(f, op).Call? ==> CallOf(CommandOf(Forward(f, op).call)) == Some(Forward(f, op).call)
  {
    if Forward(f, op).Call? {
      CommandOfRoundTrip(Forward(f, op).call);
    }
  }

  /** `SetOp` ignores its sync group: any two groups give the same request,
      and it always carries group 0. */
  lemma SetDiscardsSyncGroup(f: AsynchJaguar, speed: real, g1: Uint8, g2: Uint8)
    ensures Forward(f, SetOp(speed, g1)) == Forward(f, SetOp(speed, g2))
    ensures Forward(f, SetOp(speed, g1)).call.syncGroup == 0
  {
  }

  /** `PIDWrite(s)` is `Set(s)`. */
  lemma PIDWriteIsSet(f: AsynchJaguar, s: real, g: Uint8)
    ensures Forward(f, PIDWrite(s)) == Forward(f, SetOp(s, g))
  {
  }

  /** Handling the Add command a facade's constructor queues appends its
      identifier when it is new. */
  lemma DispatchOfConstruct(reg: seq<Record>, id: CanId, config: ConfigInfo)
    requires id !in Ids(reg)
    ensures Ids(Dispatch.Handle(reg, CommandOf(AddCall(id, config))).reg) == Ids(reg) + [id]
  {
    var p := ConfigPayload(id, config);
    assert CommandOf(AddCall(id, config)) == Add(Some(p));
    assert Dispatch.Handle(reg, Add(Some(p))) == Dispatch.Discard(AddJag(reg, p));
  }

  /** Constructing a facade registers its device once the worker has run:
      with a free slot and the identifier not yet in use, the worker's next
      iteration appends exactly one device with that identifier. */
  lemma ConstructRegistersDevice(s: Server, f: AsynchJaguar, config: ConfigInfo, elapsed: bool)
    requires CanJagServer.Valid(s) && s.sendQueue.Some? && Contents(s.sendQueue.value) == []
    requires 0 < s.sendQueue.value.capacity
    requires f.id !in Ids(s.jags)
    ensures Issue(s, Forward(f, Construct(config)).call).Some?
    ensures var s1 := Issue(s, Forward(f, Construct(config)).call).value;
      && !CheckSendError(s1)
      && Ids(Step(s1, elapsed).jags) == Ids(s.jags) + [f.id]
  {
    assert Forward(f, Construct(config)).call == AddCall(f.id, config);
    IssueIntoEmptyQueue(s, AddCall(f.id, config));
    var s1 := Issue(s, AddCall(f.id, config)).value;
    StepHandlesHead(s1, elapsed);
    DispatchOfConstruct(s.jags, f.id, config);
  }

  /** Destroying a facade unregisters its device once the worker has run. */
  lemma DestroyUnregistersDevice(s: Server, f: AsynchJaguar, elapsed: bool)
    requires CanJagServer.Valid(s) && s.sendQueue.Some? && Contents(s.sendQueue.value) == []
    requires 0 < s.sendQueue.value.capacity
    ensures Issue(s, Forward(f, Destroy).call).Some?
    ensures f.id !in Ids(Step(Issue(s, Forward(f, Destroy).call).value, elapsed).jags)
  {
    assert Forward(f, Destroy).call == RemoveCall(f.id);
    IssueIntoEmptyQueue(s, RemoveCall(f.id));
    var s1 := Issue(s, RemoveCall(f.id)).value;
    StepHandlesHead(s1, elapsed);
    DispatchOfDestroy(s.jags, f.id);
  }

  /** Handling the Remove command a facade's destructor queues leaves its
      identifier unregistered. */
  lemma DispatchOfDestroy(reg: seq<Record>, id: CanId)
    requires DistinctIds(reg)
    ensures id !in Ids(Dispatch.Handle(reg, CommandOf(RemoveCall(id))).reg)
  {
    assert CommandOf(RemoveCall(id)) == Remove(id);
    assert Dispatch.Handle(reg, Remove(id)).reg == RemoveJag(reg, id).0;
  }
}
