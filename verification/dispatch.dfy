/** One pass through the `RunLoop` switch of CANJagServer/CANJaguarServer.cpp
    (lines 573-877): the effect of one received command on the device list.

    `Handle` is the switch with its defects corrected and is what the
    worker runs. `DispatchAsWritten` is the switch as the source has it; the
    lemmas below show exactly where the two differ. */
module Dispatch {
  import opened Wrappers
  import opened Ints
  import opened JaguarUtils
  import opened Messages
  import opened Registry

  /** What one command does: the new device list, the replies put on the
      response queue, a sync-group update issued to the driver library, a
      driver taken out of service, and how many times the command message
      itself was freed. */
  datatype Effects = Effects(
    reg: seq<Record>,
    replies: seq<Reply>,
    syncUpdate: Option<Uint8>,
    retired: Option<Driver>,
    messageFrees: nat)

  /** How a pass through the switch as written ends: the loop goes on, the
      loop is left by `return`, or the pass has undefined behaviour. */
  datatype Outcome = Continue(effects: Effects) | ExitLoop | Undefined

  /** A command with no effect beyond freeing its message. */
  function Discard(reg: seq<Record>): Effects
  {
    Effects(reg, [], None, None, 1)
  }

  /** The switch with the flagged defects corrected: a Get carries its
      identifier and is always answered, a NULL payload is discarded and the
      loop goes on, Config matches the identifier of its own payload, and
      Remove frees its message once. */
  function Handle(reg: seq<Record>, c: Command): (e: Effects)
    ensures e.messageFrees == 1
    ensures c.Get? <==> |e.replies| == 1
    ensures !c.Get? ==> e.replies == []
    ensures e.syncUpdate.Some? <==> c.UpdateSyncGroup?
    ensures c.UpdateSyncGroup? ==> e.syncUpdate == Some(c.group)
    ensures e.retired.Some? ==> c.Remove? && !e.retired.value.enabled
    ensures !c.Add? && !c.Remove? ==> Ids(e.reg) == Ids(reg)
    ensures DistinctIds(reg) ==> DistinctIds(e.reg)
    ensures c.Get? || c.UpdateSyncGroup? || c.Nop? || c.Unrecognised? ==> e.reg == reg && e.retired == None
    ensures (c.Set? || c.Add? || c.Config?) && !HasPayload(c) ==> e.reg == reg && e.retired == None
    ensures c.Get? ==> e.replies == [GetReply(reg, c.id)]
    ensures c.Disable? ==> e.reg == DisableJag(reg, c.id)
    ensures c.Enable? ==> e.reg == EnableJag(reg, c.id)
    ensures c.Set? && c.setting.Some? ==> e.reg == SetJag(reg, c.setting.value)
    ensures c.Add? && c.addition.Some? ==> e.reg == AddJag(reg, c.addition.value)
    ensures c.Config? && c.configuration.Some? ==>
      e.reg == ConfigJag(reg, c.configuration.value.id, c.configuration.value.config)
    ensures c.Remove? ==> (e.reg, e.retired) == RemoveJag(reg, c.id)
  {
    match c
    case Nop => Discard(reg)
    case Disable(id) => Discard(DisableJag(reg, id))
    case Enable(id) => Discard(EnableJag(reg, id))
    case Set(p) => if p.None? then Discard(reg) else Discard(SetJag(reg, p.value))
    case Add(p) => if p.None? then Discard(reg) else Discard(AddJag(reg, p.value))
    case Remove(id) =>
      var (r, d) := RemoveJag(reg, id);
      Effects(r, [], None, d, 1)
    case Config(p) => if p.None? then Discard(reg) else Discard(ConfigJag(reg, p.value.id, p.value.config))
    case Get(id) => Effects(reg, [GetReply(reg, id)], None, None, 1)
    case UpdateSyncGroup(g) => Effects(reg, [], Some(g), None, 1)
    case Unrecognised(_) => Discard(reg)
  }

  /** The switch as written. A Get's `Data` word holds the identifier
      itself, yet it is read as a pointer to a `GetCANJagMessage`: 0 reads
      as NULL and draws the placeholder reply, and any other value is
      dereferenced. A Config with a payload compares against the Set case's
      `SJMessage` variable, whose assignment this pass never reached, so
      that read is undefined as well; `ConfigWithStaleId` models one
      possible outcome of it. */
  function DispatchAsWritten(reg: seq<Record>, c: Command): (o: Outcome)
    ensures c.Set? && c.setting.None? ==> o == ExitLoop
    ensures c.Add? && c.addition.None? ==> o == ExitLoop
    ensures c.Get? && c.id != 0 ==> o == Undefined
    ensures c.Config? && c.configuration.Some? ==> o == Undefined
    ensures c.Config? && c.configuration.None? ==> o == Continue(Discard(reg))
  {
    match c
    case Set(p) => if p.None? then ExitLoop else Continue(Handle(reg, c))
    case Add(p) => if p.None? then ExitLoop else Continue(Handle(reg, c))
    case Config(p) => if p.None? then Continue(Discard(reg)) else Undefined
    case Get(id) =>
      if id == 0 then Continue(Effects(reg, [GarbageReply()], None, None, 1)) else Undefined
    case Remove(id) =>
      var (r, d) := RemoveJag(reg, id);
      Continue(Effects(r, [], None, d, if d.Some? then 2 else 1))
    case _ => Continue(Handle(reg, c))
  }

  /** One possible outcome of the written Config case: the pointer left
      over from an earlier Set pass is still valid and names `staleSetId`,
      and the scan looks for that identifier instead of the payload's. */
  function ConfigWithStaleId(reg: seq<Record>, p: ConfigPayload, staleSetId: CanId): (e: Effects)
    ensures e.reg == ConfigJag(reg, staleSetId, p.config)
    ensures staleSetId == p.id ==> e == Handle(reg, Config(Some(p)))
  {
    Discard(ConfigJag(reg, staleSetId, p.config))
  }

  /** Outside the flagged cases the written switch is the corrected one. */
  lemma AsWrittenAgreesElsewhere(reg: seq<Record>, c: Command)
    requires !c.Get? && !c.Config?
    requires c.Set? ==> c.setting.Some?
    requires c.Add? ==> c.addition.Some?
    requires c.Remove? ==> c.id !in Ids(reg)
    ensures DispatchAsWritten(reg, c) == Continue(Handle(reg, c))
  {
  }

  /** A NULL Set or Add payload leaves the loop for good, while a NULL Config
      payload is discarded and the loop goes on; the corrected switch
      discards all three. */
  lemma NullPayloadStopsWorker(reg: seq<Record>)
    ensures DispatchAsWritten(reg, Set(None)) == ExitLoop
    ensures DispatchAsWritten(reg, Add(None)) == ExitLoop
    ensures DispatchAsWritten(reg, Config(None)) == Continue(Discard(reg))
    ensures Handle(reg, Set(None)) == Discard(reg) && Handle(reg, Add(None)) == Discard(reg)
  {
  }

  /** A Remove that finds its device frees the command message twice. */
  lemma RemoveFreesMessageTwice(reg: seq<Record>, id: CanId)
    requires id in Ids(reg)
    ensures DispatchAsWritten(reg, Remove(id)).Continue?
    ensures DispatchAsWritten(reg, Remove(id)).effects.messageFrees == 2
    ensures Handle(reg, Remove(id)).messageFrees == 1
  {
  }

  /** In the outcome where the stale identifier names no registered
      device, Config as written misses its own device and leaves the list
      unchanged, while the corrected switch stores the new configuration. */
  lemma ConfigMatchesStaleId(reg: seq<Record>, p: ConfigPayload, staleSetId: CanId)
    requires p.id in Ids(reg) && staleSetId !in Ids(reg)
    ensures DispatchAsWritten(reg, Config(Some(p))) == Undefined
    ensures ConfigWithStaleId(reg, p, staleSetId) == Discard(reg)
    ensures var i := FirstMatch(reg, p.id).value;
      Handle(reg, Config(Some(p))).reg[i].info == p.config
  {
  }

  /** A Get for a device registered as 0 is answered with the placeholder
      reply by the written switch, whatever the device reads; the corrected
      switch answers with the reading. */
  lemma GetOfDeviceZero(reg: seq<Record>)
    requires 0 in Ids(reg)
    ensures DispatchAsWritten(reg, Get(0)) == Continue(Effects(reg, [GarbageReply()], None, None, 1))
    ensures Handle(reg, Get(0)).replies[0].command == GetCode
  {
  }

  /** A Get for an unregistered device gets no reply from the written scan,
      so its caller, blocked on the response queue, waits forever; the
      corrected switch always sends one reply. */
  lemma GetMissSendsNoReply(reg: seq<Record>, id: CanId)
    requires id !in Ids(reg)
    ensures GetRepliesAsWritten(reg, id) == []
    ensures Handle(reg, Get(id)).replies == [GarbageReply()]
  {
  }

  /** An UpdateSyncGroup does the same whatever devices are registered: it
      issues the group to the driver library, leaves the list alone and
      sends no reply. */
  lemma SyncGroupIgnoresDevices(a: seq<Record>, b: seq<Record>, g: Uint8)
    ensures Handle(a, UpdateSyncGroup(g)).(reg := b) == Handle(b, UpdateSyncGroup(g))
    ensures Handle(a, UpdateSyncGroup(g)) == Effects(a, [], Some(g), None, 1)
  {
  }

  /** A Get only reads: the list is unchanged and the one reply carries the
      reading of the first device with the identifier. */
  lemma GetOnlyReads(reg: seq<Record>, id: CanId)
    ensures Handle(reg, Get(id)).reg == reg
    ensures FirstMatch(reg, id).Some? ==>
      Handle(reg, Get(id)).replies == [Reply(GetCode, Some(GetPayload(id, reg[FirstMatch(reg, id).value].jag.value)))]
    ensures FirstMatch(reg, id).None? ==> Handle(reg, Get(id)).replies == [GarbageReply()]
  {
  }

  /** The device list after a run of commands. */
  function DispatchAll(reg: seq<Record>, cs: seq<Command>): seq<Record>
    decreases |cs|
  {
    if cs == [] then reg else DispatchAll(Handle(reg, cs[0]).reg, cs[1..])
  }

  /** No run of commands ever registers an identifier twice. */
  lemma {:induction false} DispatchAllKeepsIdsDistinct(reg: seq<Record>, cs: seq<Command>)
    requires DistinctIds(reg)
    ensures DistinctIds(DispatchAll(reg, cs))
    decreases |cs|
  {
    if cs != [] {
      DispatchAllKeepsIdsDistinct(Handle(reg, cs[0]).reg, cs[1..]);
    }
  }

  /** After a Remove, every further write to the same identifier is a no-op. */
  lemma RemoveThenWriteIsNoop(reg: seq<Record>, id: CanId, c: Command)
    requires DistinctIds(reg)
    requires c == Disable(id) || c == Enable(id) || c == Remove(id)
      || (c.Set? && c.setting.Some? && c.setting.value.id == id)
      || (c.Config? && c.configuration.Some? && c.configuration.value.id == id)
    ensures var r := Handle(reg, Remove(id)).reg;
      Handle(r, c).reg == r
  {
    var r := Handle(reg, Remove(id)).reg;
    assert id !in Ids(r);
  }

  /** A run of three commands is their dispatches in order. */
  lemma DispatchAllThree(reg: seq<Record>, c0: Command, c1: Command, c2: Command)
    ensures DispatchAll(reg, [c0, c1, c2]) == Handle(Handle(Handle(reg, c0).reg, c1).reg, c2).reg
  {
    var cs := [c0, c1, c2];
    var r1 := Handle(reg, c0).reg;
    var r2 := Handle(r1, c1).reg;
    var r3 := Handle(r2, c2).reg;
    assert cs[1..] == [c1, c2] && [c1, c2][1..] == [c2] && [c2][1..] == [];
    assert DispatchAll(r2, [c2]) == DispatchAll(r3, []) == r3;
    assert DispatchAll(r1, [c1, c2]) == DispatchAll(r2, [c2]);
    assert DispatchAll(reg, cs) == DispatchAll(r1, [c1, c2]);
  }

  /** Add of a new device 3, Enable, then Set(0.42) leaves a device whose
      Get reply carries 0.42. */
  lemma AddEnableSetGet(reg: seq<Record>, config: ConfigInfo)
    requires 3 !in Ids(reg)
    ensures var r := DispatchAll(reg, [Add(Some(ConfigPayload(3, config))), Enable(3), Set(Some(SetPayload(3, 0.42, 0)))]);
      GetReply(r, 3) == Reply(GetCode, Some(GetPayload(3, 0.42)))
  {
    var r1 := AddJag(reg, ConfigPayload(3, config));
    var r2 := EnableJag(r1, 3);
    var r3 := SetJag(r2, SetPayload(3, 0.42, 0));
    RoundTripCommands(reg, config);
    var n := |reg|;
    FirstMatchOfAppended(reg, r1, 3);
    FirstMatchByIds(r1, r2, 3);
    FirstMatchByIds(r2, r3, 3);
    assert r3[n].jag.value == 0.42;
  }

  /** The commands of the round-trip scenario are the registry operations in order. */
  lemma RoundTripCommands(reg: seq<Record>, config: ConfigInfo)
    ensures DispatchAll(reg, [Add(Some(ConfigPayload(3, config))), Enable(3), Set(Some(SetPayload(3, 0.42, 0)))])
      == SetJag(EnableJag(AddJag(reg, ConfigPayload(3, config)), 3), SetPayload(3, 0.42, 0))
  {
    var c0, c1, c2 := Add(Some(ConfigPayload(3, config))), Enable(3), Set(Some(SetPayload(3, 0.42, 0)));
    DispatchAllThree(reg, c0, c1, c2);
    var r1 := Handle(reg, c0).reg;
    assert r1 == AddJag(reg, ConfigPayload(3, config));
    var r2 := Handle(r1, c1).reg;
    assert r2 == EnableJag(r1, 3);
    assert Handle(r2, c2).reg == SetJag(r2, SetPayload(3, 0.42, 0));
  }

  /** A record appended behind a list without its identifier is the first match. */
  lemma FirstMatchOfAppended(reg: seq<Record>, r: seq<Record>, id: CanId)
    requires id !in Ids(reg) && |r| == |reg| + 1 && r[..|reg|] == reg && r[|reg|].id == id
    ensures FirstMatch(r, id) == Some(|reg|)
  {
    assert Ids(r)[|reg|] == id;
    forall k | 0 <= k < |reg|
      ensures r[k].id != id
    {
      assert r[k] == reg[k] && Ids(reg)[k] == reg[k].id;
    }
  }
}
