/** The brown-out sweep at the end of every `RunLoop` iteration
    (CANJagServer/CANJaguarServer.cpp lines 883-902): when checking is
    enabled and the check interval has elapsed, one device, chosen by a
    round-robin cursor, is checked with `CheckCANJaguar`. The clock is left
    out: whether the interval has elapsed is an input. */
module Sweep {
  import opened Wrappers
  import opened JaguarUtils
  import opened Registry

  /** The index the cursor selects: the cursor itself, or 0 once it has run
      off the end of the list. */
  function SweepIndex(cursor: nat, len: nat): nat
  {
    if cursor >= len then 0 else cursor
  }

  /** The device list and cursor after a step, and the index checked, if any. */
  datatype SweepResult = SweepResult(reg: seq<Record>, cursor: nat, visited: Option<nat>)

  /** One sweep step; `due` is `CheckJags` together with "the interval has elapsed". */
  function SweepStep(reg: seq<Record>, cursor: nat, due: bool): (r: SweepResult)
    ensures !due ==> r == SweepResult(reg, cursor, None)
    ensures due ==> r.cursor == SweepIndex(cursor, |reg|) + 1
    ensures due && |reg| > 0 ==> r.visited == Some(SweepIndex(cursor, |reg|))
    ensures r.visited.None? ==> r.reg == reg
    ensures |r.reg| == |reg| && Ids(r.reg) == Ids(reg)
    ensures forall k :: 0 <= k < |reg| ==> r.reg[k].id == reg[k].id && r.reg[k].info == reg[k].info
    ensures r.visited.Some? ==>
      var i := r.visited.value;
      && i < |reg|
      && r.reg[i].jag == CheckJaguar(reg[i].jag, reg[i].info)
      && (KnownMode(reg[i].info.mode) ==> r.reg[i].jag.mode == reg[i].info.mode)
      && forall k :: 0 <= k < |reg| && k != i ==> r.reg[k] == reg[k]
  {
    if !due then SweepResult(reg, cursor, None)
    else
      var i := SweepIndex(cursor, |reg|);
      if |reg| == 0 then SweepResult(reg, i + 1, None)
      else SweepResult(reg[i := reg[i].(jag := CheckJaguar(reg[i].jag, reg[i].info))], i + 1, Some(i))
  }

  /** The indexes `k` consecutive due steps check, from `cursor`, on a list
      of `len` devices. */
  function Visits(cursor: nat, len: nat, k: nat): (v: seq<nat>)
    ensures |v| == k
    decreases k
  {
    if k == 0 then [] else [SweepIndex(cursor, len)] + Visits(SweepIndex(cursor, len) + 1, len, k - 1)
  }

  /** `k` consecutive due steps, returning the final list, cursor and the
      indexes checked in order. */
  function SweepRun(reg: seq<Record>, cursor: nat, k: nat): (r: (seq<Record>, nat, seq<nat>))
    decreases k
  {
    if k == 0 then (reg, cursor, [])
    else
      var s := SweepStep(reg, cursor, true);
      var rest := SweepRun(s.reg, s.cursor, k - 1);
      (rest.0, rest.1, (if s.visited.Some? then [s.visited.value] else []) + rest.2)
  }

  /** Due steps keep the list's length and identifiers and check the
      indexes `Visits` predicts. */
  lemma {:induction false} SweepRunVisits(reg: seq<Record>, cursor: nat, k: nat)
    requires |reg| > 0
    ensures |SweepRun(reg, cursor, k).0| == |reg|
    ensures Ids(SweepRun(reg, cursor, k).0) == Ids(reg)
    ensures SweepRun(reg, cursor, k).2 == Visits(cursor, |reg|, k)
    decreases k
  {
    if k > 0 {
      var s := SweepStep(reg, cursor, true);
      SweepRunVisits(s.reg, s.cursor, k - 1);
      var rest := SweepRun(s.reg, s.cursor, k - 1);
      assert s.visited == Some(SweepIndex(cursor, |reg|));
      assert SweepRun(reg, cursor, k) == (rest.0, rest.1, [SweepIndex(cursor, |reg|)] + rest.2);
      assert Visits(cursor, |reg|, k) == [SweepIndex(cursor, |reg|)] + Visits(s.cursor, |reg|, k - 1);
    }
  }

  /** Position `j` steps after `s` on a ring of `len` slots, for `j < len`. */
  function Ring(s: nat, j: nat, len: nat): nat
  {
    if s + j < len then s + j else s + j - len
  }

  /** From any cursor, the `j`-th of up to `len` due steps checks index
      (start + j) around the ring. */
  lemma {:induction false} VisitsRotate(cursor: nat, len: nat, k: nat)
    requires 0 < len && k <= len
    ensures forall j :: 0 <= j < k ==> Visits(cursor, len, k)[j] == Ring(SweepIndex(cursor, len), j, len)
    decreases k
  {
    if k > 0 {
      var s := SweepIndex(cursor, len);
      VisitsRotate(s + 1, len, k - 1);
      var v := Visits(cursor, len, k);
      var w := Visits(s + 1, len, k - 1);
      assert v == [s] + w;
      forall j | 0 <= j < k
        ensures v[j] == Ring(s, j, len)
      {
        if j > 0 {
          assert v[j] == w[j - 1];
        }
      }
    }
  }

  /** `len` due steps from any cursor check each of `len` indexes once. */
  lemma VisitsCoverOnce(cursor: nat, len: nat)
    requires len > 0
    ensures var v := Visits(cursor, len, len);
      && (forall i :: 0 <= i < len ==> i in v)
      && (forall a, b :: 0 <= a < b < len ==> v[a] != v[b])
  {
    VisitsRotate(cursor, len, len);
    var v := Visits(cursor, len, len);
    var s := SweepIndex(cursor, len);
    forall i | 0 <= i < len
      ensures i in v
    {
      var j := if i >= s then i - s else i + len - s;
      assert v[j] == Ring(s, j, len) == i;
    }
    forall a, b | 0 <= a < b < len
      ensures v[a] != v[b]
    {
      assert v[a] == Ring(s, a, len) && v[b] == Ring(s, b, len);
    }
  }

  /** Round-robin fairness: on a list of K devices, K consecutive due steps
      from any cursor check every index exactly once. */
  lemma SweepVisitsEveryDeviceOnce(reg: seq<Record>, cursor: nat)
    requires |reg| > 0
    ensures var v := SweepRun(reg, cursor, |reg|).2;
      && |v| == |reg|
      && (forall i :: 0 <= i < |reg| ==> i in v)
      && (forall a, b :: 0 <= a < b < |v| ==> v[a] != v[b])
  {
    SweepRunVisits(reg, cursor, |reg|);
    VisitsCoverOnce(cursor, |reg|);
  }
}
