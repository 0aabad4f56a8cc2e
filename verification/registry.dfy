/** The worker's list of attached devices (the `Jags` vector of
    CANJagServer/CANJaguarServer.cpp) and the per-command effects the
    `RunLoop` switch has on it.

    The list is modelled by its items, `seq<Record>`. `AddJagIsVectorPush`
    and `RemoveJagIsVectorRemove` show that the list operations here are
    what `Vectors.Push` and `Vectors.Remove(i, 1)` do to a vector's items,
    and an `operator[]` store at a valid index replaces that item. Every
    command that names a device scans the list from the front and acts on
    the first record carrying its identifier. */
module Registry {
  import opened Wrappers
  import opened Ints
  import opened JaguarUtils
  import opened Messages
  import Vectors

  /** `ServerCANJagInfo`: a device identifier, its driver and the
      configuration last applied to it. */
  datatype Record = Record(id: CanId, jag: Driver, info: ConfigInfo)

  function Ids(reg: seq<Record>): (ids: seq<CanId>)
    ensures |ids| == |reg|
    ensures forall k :: 0 <= k < |reg| ==> ids[k] == reg[k].id
  {
    seq(|reg|, k requires 0 <= k < |reg| => reg[k].id)
  }

  /** Registry invariant: no identifier is registered twice. */
  ghost predicate DistinctIds(reg: seq<Record>)
  {
    forall j, k :: 0 <= j < k < |reg| ==> reg[j].id != reg[k].id
  }

  /** Where the source's scanning loops stop: the first record with `id`. */
  function FirstMatch(reg: seq<Record>, id: CanId): (r: Option<nat>)
    ensures r.None? <==> id !in Ids(reg)
    ensures r.Some? ==> r.value < |reg| && reg[r.value].id == id
    ensures r.Some? ==> forall k :: 0 <= k < r.value ==> reg[k].id != id
    decreases |reg|
  {
    if reg == [] then None
    else if reg[0].id == id then Some(0)
    else
      match FirstMatch(reg[1..], id)
      case None =>
        assert Ids(reg) == [reg[0].id] + Ids(reg[1..]);
        None
      case Some(i) => Some(i + 1)
  }

  /** The first match depends on the identifiers alone. */
  lemma {:induction false} FirstMatchByIds(a: seq<Record>, b: seq<Record>, id: CanId)
    requires Ids(a) == Ids(b)
    ensures FirstMatch(a, id) == FirstMatch(b, id)
    decreases |a|
  {
    if a != [] {
      assert a[0].id == Ids(a)[0] == Ids(b)[0] == b[0].id;
      assert Ids(a[1..]) == Ids(a)[1..] == Ids(b)[1..] == Ids(b[1..]);
      FirstMatchByIds(a[1..], b[1..], id);
    }
  }

  /** With distinct identifiers the first match is the only match. */
  lemma FirstMatchIsOnlyMatch(reg: seq<Record>, id: CanId)
    requires DistinctIds(reg) && FirstMatch(reg, id).Some?
    ensures forall k :: 0 <= k < |reg| && reg[k].id == id ==> k == FirstMatch(reg, id).value
  {
  }

  /** Issue `calls` to the driver of the first record with `id`; a miss
      changes nothing. This is the shape of the Disable, Enable and Set cases. */
  function ActOnFirst(reg: seq<Record>, id: CanId, calls: seq<DriverCall>): (r: seq<Record>)
    ensures |r| == |reg| && Ids(r) == Ids(reg)
    ensures forall k :: 0 <= k < |reg| ==> r[k].id == reg[k].id && r[k].info == reg[k].info
    ensures FirstMatch(reg, id).None? ==> r == reg
    ensures FirstMatch(reg, id).Some? ==>
      var i := FirstMatch(reg, id).value;
      r[i].jag == ApplyAll(reg[i].jag, calls) && forall k :: 0 <= k < |reg| && k != i ==> r[k] == reg[k]
  {
    match FirstMatch(reg, id)
    case None => reg
    case Some(i) => reg[i := reg[i].(jag := ApplyAll(reg[i].jag, calls))]
  }

  /** Under distinct identifiers: the device with `id` receives the calls and
      every other record is untouched. */
  lemma ActOnFirstTargetsOnlyId(reg: seq<Record>, id: CanId, calls: seq<DriverCall>)
    requires DistinctIds(reg)
    ensures var r := ActOnFirst(reg, id, calls);
      && (forall k :: 0 <= k < |reg| && reg[k].id == id ==> r[k].jag == ApplyAll(reg[k].jag, calls))
      && (forall k :: 0 <= k < |reg| && reg[k].id != id ==> r[k] == reg[k])
  {
  }

  /** The calls of the Disable case: set the output to 0, then disable control. */
  function DisableCalls(): (calls: seq<DriverCall>)
    ensures |calls| == 2 && calls[0] == SetOutput(0.0, 0) && calls[1] == DisableControl
  {
    [SetOutput(0.0, 0), DisableControl]
  }

  /** The Disable case. */
  function DisableJag(reg: seq<Record>, id: CanId): (r: seq<Record>)
    ensures |r| == |reg| && Ids(r) == Ids(reg)
    ensures FirstMatch(reg, id).None? ==> r == reg
    ensures FirstMatch(reg, id).Some? ==>
      var i := FirstMatch(reg, id).value;
      && r[i].jag == ApplyAll(reg[i].jag, DisableCalls())
      && r[i].jag.value == 0.0 && !r[i].jag.enabled && r[i].jag.mode == reg[i].jag.mode
      && r[i].info == reg[i].info
      && forall k :: 0 <= k < |reg| && k != i ==> r[k] == reg[k]
  {
    var r := ActOnFirst(reg, id, DisableCalls());
    assert DisableCalls()[..1] == [SetOutput(0.0, 0)] && [SetOutput(0.0, 0)][..0] == [];
    r
  }

  /** The Enable case. */
  function EnableJag(reg: seq<Record>, id: CanId): (r: seq<Record>)
    ensures |r| == |reg| && Ids(r) == Ids(reg)
    ensures FirstMatch(reg, id).None? ==> r == reg
    ensures FirstMatch(reg, id).Some? ==>
      var i := FirstMatch(reg, id).value;
      && r[i].jag == reg[i].jag.(enabled := true)
      && r[i].info == reg[i].info
      && forall k :: 0 <= k < |reg| && k != i ==> r[k] == reg[k]
  {
    match FirstMatch(reg, id)
    case None => ActOnFirst(reg, id, [EnableControl])
    case Some(i) =>
      ApplyAllSingle(reg[i].jag, EnableControl);
      ActOnFirst(reg, id, [EnableControl])
  }

  /** The Set case for a non-NULL payload. */
  function SetJag(reg: seq<Record>, p: SetPayload): (r: seq<Record>)
    ensures |r| == |reg| && Ids(r) == Ids(reg)
    ensures FirstMatch(reg, p.id).None? ==> r == reg
    ensures FirstMatch(reg, p.id).Some? ==>
      var i := FirstMatch(reg, p.id).value;
      && r[i].jag == reg[i].jag.(value := p.speed, syncGroup := p.syncGroup)
      && r[i].info == reg[i].info
      && forall k :: 0 <= k < |reg| && k != i ==> r[k] == reg[k]
  {
    match FirstMatch(reg, p.id)
    case None => ActOnFirst(reg, p.id, [SetOutput(p.speed, p.syncGroup)])
    case Some(i) =>
      ApplyAllSingle(reg[i].jag, SetOutput(p.speed, p.syncGroup));
      ActOnFirst(reg, p.id, [SetOutput(p.speed, p.syncGroup)])
  }

  /** The Add case for a non-NULL payload: a new record for an identifier not
      yet registered, configured by `ConfigCANJaguar` and pushed at the end. */
  function AddJag(reg: seq<Record>, p: ConfigPayload): (r: seq<Record>)
    ensures p.id in Ids(reg) ==> r == reg
    ensures p.id !in Ids(reg) ==>
      && |r| == |reg| + 1 && r[..|reg|] == reg
      && r[|reg|].id == p.id && r[|reg|].info == p.config && r[|reg|].jag.enabled
      && r[|reg|].jag == ConfigureJaguar(NewDriver(), p.config)
      && (KnownMode(p.config.mode) ==> r[|reg|].jag.mode == p.config.mode)
    ensures p.id !in Ids(reg) ==> Ids(r) == Ids(reg) + [p.id]
    ensures DistinctIds(reg) ==> DistinctIds(r)
    ensures p.id in Ids(r)
  {
    if FirstMatch(reg, p.id).Some? then reg
    else
      var r := reg + [Record(p.id, ConfigureJaguar(NewDriver(), p.config), p.config)];
      assert r[|reg|].id == p.id;
      assert Ids(r) == Ids(reg) + [p.id];
      r
  }

  /** The Remove case: delete the first record with `id`, keeping the order
      of the rest, and hand back its driver after `DisableControl` (the
      driver is then deleted). */
  function RemoveJag(reg: seq<Record>, id: CanId): (r: (seq<Record>, Option<Driver>))
    ensures FirstMatch(reg, id).None? ==> r == (reg, None)
    ensures FirstMatch(reg, id).Some? ==>
      var i := FirstMatch(reg, id).value;
      && r.0 == reg[..i] + reg[i + 1..]
      && r.1 == Some(reg[i].jag.(enabled := false))
    ensures |r.0| == |reg| - (if id in Ids(reg) then 1 else 0)
    ensures DistinctIds(reg) ==> DistinctIds(r.0) && id !in Ids(r.0)
  {
    match FirstMatch(reg, id)
    case None => (reg, None)
    case Some(i) =>
      DeleteKeepsDistinct(reg, i);
      (reg[..i] + reg[i + 1..], Some(Apply(reg[i].jag, DisableControl)))
  }

  /** Deleting one record keeps the others distinct and drops its identifier. */
  lemma DeleteKeepsDistinct(reg: seq<Record>, i: nat)
    requires i < |reg|
    ensures var rest := reg[..i] + reg[i + 1..];
      && |rest| == |reg| - 1
      && (forall k :: 0 <= k < |rest| ==> rest[k] == if k < i then reg[k] else reg[k + 1])
      && (DistinctIds(reg) ==> DistinctIds(rest) && reg[i].id !in Ids(rest))
  {
    var rest := reg[..i] + reg[i + 1..];
    assert forall k :: 0 <= k < |rest| ==> rest[k] == if k < i then reg[k] else reg[k + 1];
    if DistinctIds(reg) {
      forall j, k | 0 <= j < k < |rest|
        ensures rest[j].id != rest[k].id
      {
        var j' := if j < i then j else j + 1;
        var k' := if k < i then k else k + 1;
        assert rest[j] == reg[j'] && rest[k] == reg[k'] && j' < k';
      }
      forall k | 0 <= k < |rest|
        ensures Ids(rest)[k] != reg[i].id
      {
        var k' := if k < i then k else k + 1;
        assert rest[k] == reg[k'] && k' != i;
      }
    }
  }

  /** The Config case, matching on `matchId`: apply the configuration to the
      first record with that identifier and store it as the record's `Info`. */
  function ConfigJag(reg: seq<Record>, matchId: CanId, config: ConfigInfo): (r: seq<Record>)
    ensures |r| == |reg| && Ids(r) == Ids(reg)
    ensures FirstMatch(reg, matchId).None? ==> r == reg
    ensures FirstMatch(reg, matchId).Some? ==>
      var i := FirstMatch(reg, matchId).value;
      && r[i].info == config && r[i].jag.enabled
      && r[i].jag == ConfigureJaguar(reg[i].jag, config)
      && (KnownMode(config.mode) ==> r[i].jag.mode == config.mode)
      && (!KnownMode(config.mode) ==> r[i].jag.mode == Voltage)
      && r[i].jag.value == reg[i].jag.value
      && forall k :: 0 <= k < |reg| && k != i ==> r[k] == reg[k]
  {
    match FirstMatch(reg, matchId)
    case None => reg
    case Some(i) => reg[i := Record(reg[i].id, ConfigureJaguar(reg[i].jag, config), config)]
  }

  /** The reply to a Get, as intended: the reading of the first record with
      `id`, or the placeholder reply when there is none. Exactly one reply is
      sent either way, so the waiting caller is always released. */
  function GetReply(reg: seq<Record>, id: CanId): (r: Reply)
    ensures id in Ids(reg) ==> r.command == GetCode && r.data.Some? && r.data.value.id == id
    ensures FirstMatch(reg, id).Some? ==> r.data.value.speed == reg[FirstMatch(reg, id).value].jag.value
    ensures id !in Ids(reg) ==> r == GarbageReply()
  {
    match FirstMatch(reg, id)
    case None => GarbageReply()
    case Some(i) => Reply(GetCode, Some(GetPayload(reg[i].id, reg[i].jag.value)))
  }

  /** The replies of the Get case's scanning loop as written
      (CANJaguarServer.cpp lines 801-823): one per matching record, because
      the loop has no `break`, and none at all on a miss. */
  function GetRepliesAsWritten(reg: seq<Record>, id: CanId): (r: seq<Reply>)
    ensures id !in Ids(reg) ==> r == []
    ensures |r| == multiset(Ids(reg))[id]
    ensures forall k :: 0 <= k < |r| ==> r[k].command == GetCode && r[k].data.Some? && r[k].data.value.id == id
    ensures reg != [] && reg[0].id == id ==> r[0].data.value.speed == reg[0].jag.value
    decreases |reg|
  {
    if reg == [] then []
    else
      assert Ids(reg) == [reg[0].id] + Ids(reg[1..]);
      assert multiset(Ids(reg)) == multiset{reg[0].id} + multiset(Ids(reg[1..]));
      (if reg[0].id == id then [Reply(GetCode, Some(GetPayload(id, reg[0].jag.value)))] else [])
      + GetRepliesAsWritten(reg[1..], id)
  }

  /** On a hit with distinct identifiers, the loop as written sends exactly
      the intended reply. */
  lemma {:induction false} GetRepliesAsWrittenOnHit(reg: seq<Record>, id: CanId)
    requires DistinctIds(reg) && id in Ids(reg)
    ensures GetRepliesAsWritten(reg, id) == [GetReply(reg, id)]
    decreases |reg|
  {
    assert Ids(reg) == [reg[0].id] + Ids(reg[1..]);
    if reg[0].id == id {
      HitAtHead(reg, id);
    } else {
      GetRepliesAsWrittenOnHit(reg[1..], id);
      assert GetRepliesAsWritten(reg, id) == GetRepliesAsWritten(reg[1..], id);
      assert FirstMatch(reg, id) == Some(FirstMatch(reg[1..], id).value + 1);
    }
  }

  /** With distinct identifiers, a hit at the head is the scan's only reply. */
  lemma HitAtHead(reg: seq<Record>, id: CanId)
    requires DistinctIds(reg) && reg != [] && reg[0].id == id
    ensures GetRepliesAsWritten(reg, id) == [GetReply(reg, id)]
  {
    assert Ids(reg) == [reg[0].id] + Ids(reg[1..]);
    assert id !in Ids(reg[1..]);
    assert GetRepliesAsWritten(reg[1..], id) == [];
  }

  /** The Add case's append is `Jags.push` on the vector holding the list. */
  lemma AddJagIsVectorPush(v: Vectors.Vector<Record>, p: ConfigPayload)
    requires Vectors.Valid(v) && p.id !in Ids(Vectors.Items(v))
    ensures AddJag(Vectors.Items(v), p) ==
      Vectors.Items(Vectors.Push(v, Record(p.id, ConfigureJaguar(NewDriver(), p.config), p.config)))
  {
  }

  /** The Remove case's deletion is `Jags.remove(i, 1)` at the first match. */
  lemma RemoveJagIsVectorRemove(v: Vectors.Vector<Record>, id: CanId)
    requires Vectors.Valid(v) && id in Ids(Vectors.Items(v))
    ensures RemoveJag(Vectors.Items(v), id).0 ==
      Vectors.Items(Vectors.Remove(v, FirstMatch(Vectors.Items(v), id).value, 1))
  {
  }
}
