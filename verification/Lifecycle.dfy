/** The lifecycle manager: the order in which it asks the master and the drivers to change
    state (canopen_core/src/lifecycle_manager.cpp). Every request is logged with its answer,
    and the answers are arbitrary. A request that is not answered in time counts as answered
    with an unknown state, or without success. */
module Lifecycle {

  datatype State = Unknown | Unconfigured | Inactive | Active | Finalized

  datatype Transition = Configure | Cleanup | Activate | Deactivate

  datatype Request = Asked(id: int, state: State) | Changed(id: int, transition: Transition, success: bool)

  /** A device by its name and node id. */
  datatype Device = Device(name: string, id: int)

  /** How the n-th request is answered. */
  datatype Answer = Answer(state: State, success: bool)

  type Answers = nat -> Answer

  type Log = seq<Request>

  function Ask(a: Answers, log: Log, id: int): Log {
    log + [Asked(id, a(|log|).state)]
  }

  function Change(a: Answers, log: Log, id: int, t: Transition): Log {
    log + [Changed(id, t, a(|log|).success)]
  }

  predicate Answered(log: Log, s: State) {
    log != [] && log[|log| - 1].Asked? && log[|log| - 1].state == s
  }

  predicate Succeeded(log: Log) {
    log != [] && log[|log| - 1].Changed? && log[|log| - 1].success
  }

  /** What one call has logged, and what it returns. */
  datatype Outcome = Outcome(log: Log, ok: bool)

  function UpMaster(a: Answers, log: Log, master: int): Outcome {
    var l1 := Ask(a, log, master);
    if !Answered(l1, Unconfigured) then Outcome(l1, false) else
    var l2 := Change(a, l1, master, Configure);
    if !Succeeded(l2) then Outcome(l2, false) else
    var l3 := Change(a, l2, master, Activate);
    Outcome(l3, Succeeded(l3))
  }

  function UpDriver(a: Answers, log: Log, master: int, id: int): Outcome {
    var l1 := Ask(a, log, master);
    if !Answered(l1, Active) then Outcome(l1, false) else
    var l2 := Ask(a, l1, id);
    if !Answered(l2, Unconfigured) then Outcome(l2, false) else
    var l3 := Change(a, l2, id, Configure);
    if !Succeeded(l3) then Outcome(l3, false) else
    var l4 := Change(a, l3, id, Activate);
    Outcome(l4, Succeeded(l4))
  }

  /** bring_down_master and bring_down_driver are alike. */
  function Down(a: Answers, log: Log, id: int): Outcome {
    var l := Ask(a, Change(a, Change(a, log, id, Deactivate), id, Cleanup), id);
    Outcome(l, Answered(l, Unconfigured))
  }

  predicate Contains(s: string, t: string) {
    exists i :: 0 <= i <= |s| && t <= s[i..]
  }

  predicate IsMaster(d: Device) {
    Contains(d.name, "master")
  }

  function UpFrom(a: Answers, log: Log, master: int, devices: seq<Device>): Outcome
    decreases |devices|
  {
    if devices == [] then Outcome(log, true)
    else if IsMaster(devices[0]) then UpFrom(a, log, master, devices[1..])
    else
      var o := UpDriver(a, log, master, devices[0].id);
      if !o.ok then o else UpFrom(a, o.log, master, devices[1..])
  }

  function UpAll(a: Answers, log: Log, master: int, devices: seq<Device>): Outcome {
    var o := UpMaster(a, log, master);
    if !o.ok then o else UpFrom(a, o.log, master, devices)
  }

  function DownFrom(a: Answers, log: Log, devices: seq<Device>): Outcome
    decreases |devices|
  {
    if devices == [] then Outcome(log, true)
    else if devices[0].name == "master" then DownFrom(a, log, devices[1..])
    else
      var o := Down(a, log, devices[0].id);
      if !o.ok then o else DownFrom(a, o.log, devices[1..])
  }

  function DownAll(a: Answers, log: Log, master: int, devices: seq<Device>): Outcome {
    var o := DownFrom(a, log, devices);
    if !o.ok then o else Down(a, o.log, master)
  }

  class LifecycleManager {
    const answers: Answers
    const devices: seq<Device>  // the map from names to ids, in its order
    const masterId: int
    var log: Log

    constructor (devices: seq<Device>, masterId: int, answers: Answers)
      ensures this.devices == devices && this.masterId == masterId && this.answers == answers && log == []
    {
      this.devices, this.masterId, this.answers, log := devices, masterId, answers, [];
    }

    method GetState(id: int) returns (state: State)
      modifies this`log
      ensures log == Ask(answers, old(log), id) && Answered(log, state)
    {
      state := answers(|log|).state;
      log := log + [Asked(id, state)];
    }

    method ChangeState(id: int, t: Transition) returns (success: bool)
      modifies this`log
      ensures log == Change(answers, old(log), id, t) && success == Succeeded(log)
    {
      success := answers(|log|).success;
      log := log + [Changed(id, t, success)];
    }

    method BringUpMaster() returns (ok: bool)
      modifies this`log
      ensures Outcome(log, ok) == UpMaster(answers, old(log), masterId)
    {
      var state := GetState(masterId);
      if state != Unconfigured {
        return false;
      }
      var configured := ChangeState(masterId, Configure);
      if !configured {
        return false;
      }
      ok := ChangeState(masterId, Activate);
    }

    method BringUpDriver(id: int) returns (ok: bool)
      modifies this`log
      ensures Outcome(log, ok) == UpDriver(answers, old(log), masterId, id)
    {
      var masterState := GetState(masterId);
      if masterState != Active {
        return false;
      }
      var state := GetState(id);
      if state != Unconfigured {
        return false;
      }
      var configured := ChangeState(id, Configure);
      if !configured {
        return false;
      }
      ok := ChangeState(id, Activate);
    }

    method BringDown(id: int) returns (ok: bool)
      modifies this`log
      ensures Outcome(log, ok) == Down(answers, old(log), id)
    {
      var _ := ChangeState(id, Deactivate);
      var _ := ChangeState(id, Cleanup);
      var state := GetState(id);
      ok := state == Unconfigured;
    }

    method BringUpAll() returns (ok: bool)
      modifies this`log
      ensures Outcome(log, ok) == UpAll(answers, old(log), masterId, devices)
    {
      var up := BringUpMaster();
      if !up {
        return false;
      }
      ghost var goal := UpFrom(answers, log, masterId, devices);
      for i := 0 to |devices|
        invariant UpFrom(answers, log, masterId, devices[i..]) == goal
      {
        assert devices[i..][0] == devices[i] && devices[i..][1..] == devices[i + 1..];
        if !IsMaster(devices[i]) {
          var driverUp := BringUpDriver(devices[i].id);
          if !driverUp {
            return false;
          }
        }
      }
      ok := true;
    }

    method BringDownAll() returns (ok: bool)
      modifies this`log
      ensures Outcome(log, ok) == DownAll(answers, old(log), masterId, devices)
    {
      ghost var goal := DownFrom(answers, log, devices);
      for i := 0 to |devices|
        invariant DownFrom(answers, log, devices[i..]) == goal
      {
        assert devices[i..][0] == devices[i] && devices[i..][1..] == devices[i + 1..];
        if devices[i].name != "master" {
          var down := BringDown(devices[i].id);
          if !down {
            return false;
          }
        }
      }
      ok := BringDown(masterId);
    }
  }

  // ----- What bringing up logs -----

  function MasterUp(master: int): Log {
    [Asked(master, Unconfigured), Changed(master, Configure, true), Changed(master, Activate, true)]
  }

  function DriverUp(master: int, id: int): Log {
    [Asked(master, Active), Asked(id, Unconfigured), Changed(id, Configure, true), Changed(id, Activate, true)]
  }

  function AllUp(master: int, devices: seq<Device>): Log {
    if devices == [] then []
    else (if IsMaster(devices[0]) then [] else DriverUp(master, devices[0].id)) + AllUp(master, devices[1..])
  }

  /** The part of a bring-up that ends with its first bad answer. */
  predicate BreaksOff(full: Log, part: Log) {
    && 0 < |part| <= |full|
    && part[..|part| - 1] == full[..|part| - 1]
    && var last, good := part[|part| - 1], full[|part| - 1];
       && last != good && last.id == good.id && last.Asked? == good.Asked?
       && (good.Changed? ==> last == Changed(good.id, good.transition, false))
  }

  /** Bringing up stopped at device i: the devices before it are up, and l is how far it came. */
  predicate StoppedAt(log: Log, master: int, devices: seq<Device>, i: int, l: Log) {
    && 0 <= i < |devices| && !IsMaster(devices[i])
    && BreaksOff(DriverUp(master, devices[i].id), l)
    && log == AllUp(master, devices[..i]) + l
  }

  lemma UpMasterShape(a: Answers, log: Log, master: int)
    ensures var o := UpMaster(a, log, master);
            if o.ok then o.log == log + MasterUp(master)
            else log <= o.log && BreaksOff(MasterUp(master), o.log[|log|..])
  {
    var full, o := MasterUp(master), UpMaster(a, log, master);
    var part := o.log[|log|..];
    assert part == (if |part| == 1 then [part[0]]
                    else if |part| == 2 then [part[0], part[1]]
                    else [part[0], part[1], part[2]]);
  }

  lemma UpDriverShape(a: Answers, log: Log, master: int, id: int)
    ensures var o := UpDriver(a, log, master, id);
            if o.ok then o.log == log + DriverUp(master, id)
            else log <= o.log && BreaksOff(DriverUp(master, id), o.log[|log|..])
  {
    var o := UpDriver(a, log, master, id);
    var part := o.log[|log|..];
    if !o.ok {
      assert part[..|part| - 1] == DriverUp(master, id)[..|part| - 1];
    }
  }

  /** Device d is up, and bringing up the rest stopped. */
  lemma StoppedLater(part: Log, master: int, d: Device, rest: seq<Device>, i: int, l: Log)
    requires StoppedAt(part, master, rest, i, l)
    ensures StoppedAt(AllUp(master, [d]) + part, master, [d] + rest, i + 1, l)
  {
    var devices := [d] + rest;
    assert devices[..i + 1] == [d] + rest[..i];
    assert devices[..i + 1][1..] == rest[..i];
  }

  lemma StoppedHere(part: Log, master: int, devices: seq<Device>)
    requires devices != [] && !IsMaster(devices[0]) && BreaksOff(DriverUp(master, devices[0].id), part)
    ensures StoppedAt(part, master, devices, 0, part)
  {
    assert devices[..0] == [];
  }

  function UpOne(a: Answers, log: Log, master: int, d: Device): Outcome {
    if IsMaster(d) then Outcome(log, true) else UpDriver(a, log, master, d.id)
  }

  lemma UpOneShape(a: Answers, log: Log, master: int, d: Device)
    ensures var o := UpOne(a, log, master, d);
            && log <= o.log
            && (if o.ok then o.log[|log|..] == AllUp(master, [d])
                else !IsMaster(d) && BreaksOff(DriverUp(master, d.id), o.log[|log|..]))
  {
    hide UpDriver, BreaksOff, DriverUp, IsMaster;
    if !IsMaster(d) { UpDriverShape(a, log, master, d.id); }
  }

  lemma {:induction false} UpFromShape(a: Answers, log: Log, master: int, devices: seq<Device>)
    ensures var o := UpFrom(a, log, master, devices);
            && log <= o.log
            && (if o.ok then o.log[|log|..] == AllUp(master, devices)
                else exists i, l :: StoppedAt(o.log[|log|..], master, devices, i, l))
    decreases |devices|
  {
    hide UpDriver, BreaksOff, IsMaster, StoppedAt, DriverUp;
    if devices != [] {
      var d, rest := devices[0], devices[1..];
      var o := UpOne(a, log, master, d);
      UpOneShape(a, log, master, d);
      if o.ok {
        UpFromShape(a, o.log, master, rest);
        var o' := UpFrom(a, o.log, master, rest);
        assert o'.log[|log|..] == o.log[|log|..] + o'.log[|o.log|..];
        if !o'.ok {
          var i, l :| StoppedAt(o'.log[|o.log|..], master, rest, i, l);
          StoppedLater(o'.log[|o.log|..], master, d, rest, i, l);
          assert devices == [d] + rest;
        }
      } else {
        StoppedHere(o.log[|log|..], master, devices);
      }
    }
  }

  lemma {:induction false} AllUpSplits(master: int, devices: seq<Device>, i: nat)
    requires i <= |devices|
    ensures AllUp(master, devices) == AllUp(master, devices[..i]) + AllUp(master, devices[i..])
  {
    if i > 0 {
      AllUpSplits(master, devices[1..], i - 1);
      assert devices[..i][1..] == devices[1..][..i - 1];
      assert devices[1..][i - 1..] == devices[i..];
    } else {
      assert devices[..0] == [] && devices[0..] == devices;
    }
  }

  lemma BrokenIsNotWhole(log: Log, master: int, devices: seq<Device>, i: int, l: Log)
    requires StoppedAt(log, master, devices, i, l)
    ensures log != AllUp(master, devices)
  {
    AllUpSplits(master, devices, i);
    var n := |AllUp(master, devices[..i])| + |l| - 1;
    assert AllUp(master, devices)[n] == DriverUp(master, devices[i].id)[|l| - 1];
    assert log[n] == l[|l| - 1];
  }

  /** Bringing up succeeds exactly when the requests and answers are these: the master
      unconfigured, configured and activated, and then for every other device, in the order
      of the map, the master active, the device unconfigured, configured and activated.
      Otherwise it stops at the first bad answer. */
  lemma UpAllExactly(a: Answers, master: int, devices: seq<Device>)
    ensures var o := UpAll(a, [], master, devices);
            && (o.ok <==> o.log == MasterUp(master) + AllUp(master, devices))
            && (!o.ok ==>
                  || BreaksOff(MasterUp(master), o.log)
                  || (MasterUp(master) <= o.log && exists i, l :: StoppedAt(o.log[3..], master, devices, i, l)))
  {
    var m := UpMaster(a, [], master);
    UpMasterShape(a, [], master);
    if m.ok {
      assert m.log == MasterUp(master);
      UpFromShape(a, m.log, master, devices);
      var o := UpFrom(a, m.log, master, devices);
      assert o.log == MasterUp(master) + o.log[3..];
      if !o.ok {
        var i, l :| StoppedAt(o.log[3..], master, devices, i, l);
        BrokenIsNotWhole(o.log[3..], master, devices, i, l);
        assert (MasterUp(master) + AllUp(master, devices))[3..] == AllUp(master, devices);
      }
    } else {
      assert m.log[0..] == m.log;
      var whole := MasterUp(master) + AllUp(master, devices);
      assert m.log[|m.log| - 1] != whole[|m.log| - 1];
    }
  }

  // ----- Consequences for the order -----

  /** Wherever a device is asked to configure, the master has just answered active, and the
      device unconfigured. */
  predicate Guarded(log: Log, master: int) {
    forall k :: 0 <= k < |log| && log[k].Changed? && log[k].transition == Configure && log[k].id != master ==>
      k >= 2 && log[k - 2] == Asked(master, Active) && log[k - 1] == Asked(log[k].id, Unconfigured)
  }

  predicate Untouched(log: Log, id: int) {
    forall r <- log :: r.id != id
  }

  lemma GuardedTogether(x: Log, y: Log, master: int)
    requires Guarded(x, master) && Guarded(y, master)
    ensures Guarded(x + y, master)
  {
    var z := x + y;
    forall k | 0 <= k < |z| && z[k].Changed? && z[k].transition == Configure && z[k].id != master
      ensures k >= 2 && z[k - 2] == Asked(master, Active) && z[k - 1] == Asked(z[k].id, Unconfigured)
    {
      if k >= |x| {
        assert y[k - |x|] == z[k];
      }
    }
  }

  lemma {:induction false} AllUpFacts(master: int, devices: seq<Device>)
    ensures Guarded(AllUp(master, devices), master)
    ensures forall d <- devices :: IsMaster(d) || Changed(d.id, Activate, true) in AllUp(master, devices)
  {
    if devices != [] {
      var d, rest := devices[0], devices[1..];
      AllUpFacts(master, rest);
      assert forall e <- rest :: e in devices;
      assert forall e <- devices :: e == d || e in rest;
      if !IsMaster(d) {
        assert DriverUp(master, d.id)[3] == Changed(d.id, Activate, true);
        GuardedTogether(DriverUp(master, d.id), AllUp(master, rest), master);
      }
    }
  }

  lemma {:induction false} AllUpUntouched(master: int, devices: seq<Device>, id: int)
    requires id != master && forall d <- devices :: d.id != id
    ensures Untouched(AllUp(master, devices), id)
  {
    if devices != [] {
      assert forall e <- devices[1..] :: e in devices;
      AllUpUntouched(master, devices[1..], id);
      assert devices[0] in devices;
    }
  }

  predicate UniqueIds(devices: seq<Device>) {
    forall i, j :: 0 <= i < j < |devices| ==> devices[i].id != devices[j].id
  }

  /** How far bringing up has come when it stops at device i: the drivers before i are active,
      and the devices after it have not been asked anything. */
  predicate UpTo(log: Log, master: int, devices: seq<Device>, i: int) {
    && 0 <= i < |devices| && !IsMaster(devices[i])
    && (forall j :: 0 <= j < i ==> IsMaster(devices[j]) || Changed(devices[j].id, Activate, true) in log)
    && (forall j :: i < j < |devices| && devices[j].id != master ==> Untouched(log, devices[j].id))
  }

  lemma BrokenGuarded(master: int, id: int, l: Log)
    requires BreaksOff(DriverUp(master, id), l)
    ensures Guarded(l, master)
  {
    forall k | 0 <= k < |l| - 1
      ensures l[k] == DriverUp(master, id)[k]
    {
      assert l[..|l| - 1][k] == DriverUp(master, id)[..|l| - 1][k];
    }
  }

  lemma StopsGuarded(log: Log, master: int, devices: seq<Device>, i: int, l: Log)
    requires StoppedAt(log, master, devices, i, l)
    ensures Guarded(log, master)
  {
    BrokenGuarded(master, devices[i].id, l);
    AllUpFacts(master, devices[..i]);
    GuardedTogether(AllUp(master, devices[..i]), l, master);
  }

  lemma StopsUpTo(log: Log, master: int, devices: seq<Device>, i: int, l: Log)
    requires UniqueIds(devices) && StoppedAt(log, master, devices, i, l)
    ensures UpTo(MasterUp(master) + log, master, devices, i)
  {
    hide Guarded, BreaksOff, AllUp, IsMaster;
    AllUpFacts(master, devices[..i]);
    forall j | 0 <= j < i
      ensures IsMaster(devices[j]) || Changed(devices[j].id, Activate, true) in MasterUp(master) + log
    {
      assert devices[..i][j] in devices[..i];
    }
    forall j | i < j < |devices| && devices[j].id != master
      ensures Untouched(MasterUp(master) + log, devices[j].id)
    {
      BrokenTouches(master, devices[i].id, l, devices[j].id);
      AllUpUntouched(master, devices[..i], devices[j].id);
    }
  }

  lemma BrokenTouches(master: int, id: int, l: Log, other: int)
    requires BreaksOff(DriverUp(master, id), l) && other != master && other != id
    ensures Untouched(l, other)
  {
    forall r | r in l
      ensures r.id != other
    {
      var k :| 0 <= k < |l| && l[k] == r;
      assert k < |l| - 1 ==> l[..|l| - 1][k] == DriverUp(master, id)[..|l| - 1][k];
    }
  }

  /** What bringing up guarantees for the order of its requests. */
  ghost predicate InOrder(o: Outcome, master: int, devices: seq<Device>) {
    && Guarded(o.log, master)
    && (MasterUp(master) <= o.log || forall r <- o.log :: r.id == master)
    && (o.ok ==> forall d <- devices :: IsMaster(d) || Changed(d.id, Activate, true) in o.log)
    && (!o.ok ==> (forall r <- o.log :: r.id == master) || exists i :: UpTo(o.log, master, devices, i))
  }

  lemma BrokenMaster(o: Outcome, master: int, devices: seq<Device>)
    requires !o.ok && BreaksOff(MasterUp(master), o.log)
    ensures InOrder(o, master, devices)
  {
    forall r | r in o.log
      ensures r.id == master
    {
      var k :| 0 <= k < |o.log| && o.log[k] == r;
      assert k < |o.log| - 1 ==> o.log[..|o.log| - 1][k] == MasterUp(master)[..|o.log| - 1][k];
    }
    assert forall k :: 0 <= k < |o.log| ==> o.log[k] in o.log;
  }

  lemma WholeInOrder(o: Outcome, master: int, devices: seq<Device>)
    requires o.ok && o.log == MasterUp(master) + AllUp(master, devices)
    ensures InOrder(o, master, devices)
  {
    AllUpFacts(master, devices);
    GuardedTogether(MasterUp(master), AllUp(master, devices), master);
    hide Guarded, IsMaster;
  }

  lemma BrokenInOrder(o: Outcome, master: int, devices: seq<Device>, i: int, l: Log)
    requires !o.ok && UniqueIds(devices) && MasterUp(master) <= o.log && StoppedAt(o.log[3..], master, devices, i, l)
    ensures InOrder(o, master, devices)
  {
    assert o.log == MasterUp(master) + o.log[3..];
    StopsGuarded(o.log[3..], master, devices, i, l);
    StopsUpTo(o.log[3..], master, devices, i, l);
    GuardedTogether(MasterUp(master), o.log[3..], master);
    hide Guarded, UpTo, StoppedAt;
  }

  /** For any number of devices and any answers: no driver is asked to configure before the
      master was activated and has just answered active; on success every driver is active;
      on failure the devices later in the order are untouched. */
  lemma UpAllKeepsOrder(a: Answers, master: int, devices: seq<Device>)
    requires UniqueIds(devices)
    ensures InOrder(UpAll(a, [], master, devices), master, devices)
  {
    UpAllExactly(a, master, devices);
    var o := UpAll(a, [], master, devices);
    hide UpAll, InOrder, StoppedAt, BreaksOff, UniqueIds;
    if o.ok {
      WholeInOrder(o, master, devices);
    } else if BreaksOff(MasterUp(master), o.log) {
      BrokenMaster(o, master, devices);
    } else {
      var i, l :| StoppedAt(o.log[3..], master, devices, i, l);
      BrokenInOrder(o, master, devices, i, l);
    }
  }

  // ----- Bringing down -----

  function DownOne(a: Answers, log: Log, d: Device): Outcome {
    if d.name == "master" then Outcome(log, true) else Down(a, log, d.id)
  }

  lemma DownOneFacts(a: Answers, log: Log, d: Device)
    ensures var o := DownOne(a, log, d);
            && log <= o.log
            && (o.ok ==> d.name == "master" || Asked(d.id, Unconfigured) in o.log)
            && (forall r <- o.log[|log|..] :: d.name != "master" && r.id == d.id)
  {
    var o := DownOne(a, log, d);
    if d.name != "master" {
      assert o.log[|log|..] == [o.log[|log|], o.log[|log| + 1], o.log[|log| + 2]];
      assert o.log[|log| + 2] in o.log;
    }
  }

  lemma {:induction false} DownFromFacts(a: Answers, log: Log, devices: seq<Device>)
    ensures var o := DownFrom(a, log, devices);
            && log <= o.log
            && (o.ok ==> forall d <- devices :: d.name == "master" || Asked(d.id, Unconfigured) in o.log)
    decreases |devices|
  {
    hide Down;
    if devices != [] {
      var d, rest := devices[0], devices[1..];
      var o := DownOne(a, log, d);
      DownOneFacts(a, log, d);
      assert forall e <- devices :: e == d || e in rest;
      if o.ok {
        DownFromFacts(a, o.log, rest);
      }
    }
  }

  lemma {:induction false} DownFromUntouched(a: Answers, log: Log, devices: seq<Device>, id: int)
    requires forall d <- devices :: d.id == id ==> d.name == "master"
    ensures log <= DownFrom(a, log, devices).log
    ensures Untouched(DownFrom(a, log, devices).log[|log|..], id)
    decreases |devices|
  {
    hide Down;
    if devices != [] {
      var d, rest := devices[0], devices[1..];
      var o := DownOne(a, log, d);
      DownOneFacts(a, log, d);
      assert d in devices && forall e <- rest :: e in devices;
      if o.ok {
        DownFromUntouched(a, o.log, rest, id);
        var o' := DownFrom(a, o.log, rest);
        assert o'.log[|log|..] == o.log[|log|..] + o'.log[|o.log|..];
      }
    }
  }

  lemma {:induction false} DownFromSplits(a: Answers, log: Log, x: seq<Device>, y: seq<Device>)
    ensures var o := DownFrom(a, log, x);
            DownFrom(a, log, x + y) == if o.ok then DownFrom(a, o.log, y) else o
    decreases |x|
  {
    if x == [] {
      assert x + y == y;
    } else {
      assert (x + y)[1..] == x[1..] + y;
      var o := if x[0].name == "master" then Outcome(log, true) else Down(a, log, x[0].id);
      DownFromSplits(a, o.log, x[1..], y);
    }
  }

  /** The ids that are brought down: of every device not called "master", in order. */
  function Ids(devices: seq<Device>): seq<int>
    decreases |devices|
  {
    if devices == [] then []
    else (if devices[0].name == "master" then [] else [devices[0].id]) + Ids(devices[1..])
  }

  /** Three requests from position k on, to deactivate, to clean up and for the state. */
  predicate AsksDown(log: Log, k: int, id: int) {
    && 0 <= k && k + 3 <= |log|
    && log[k].Changed? && log[k].id == id && log[k].transition == Deactivate
    && log[k + 1].Changed? && log[k + 1].id == id && log[k + 1].transition == Cleanup
    && log[k + 2].Asked? && log[k + 2].id == id
  }

  /** They were answered with the state unconfigured, whatever the success of the other two. */
  predicate GoesDown(log: Log, k: int, id: int) {
    AsksDown(log, k, id) && log[k + 2].state == Unconfigured
  }

  /** The first n of the ids went down one after the other. */
  predicate WentDown(log: Log, ids: seq<int>, n: nat) {
    n <= |ids| && 3 * n <= |log| && forall i :: 0 <= i < n ==> GoesDown(log, 3 * i, ids[i])
  }

  /** Bringing down ended with number n, which did not answer unconfigured. */
  predicate StuckAt(log: Log, ids: seq<int>, n: nat) {
    && n < |ids| && WentDown(log, ids, n) && |log| == 3 * n + 3
    && AsksDown(log, 3 * n, ids[n]) && log[3 * n + 2].state != Unconfigured
  }

  function DownIds(a: Answers, log: Log, ids: seq<int>): Outcome
    decreases |ids|
  {
    if ids == [] then Outcome(log, true) else
    var o := Down(a, log, ids[0]);
    if !o.ok then o else DownIds(a, o.log, ids[1..])
  }

  lemma DownOneId(a: Answers, log: Log, id: int)
    ensures DownIds(a, log, [id]) == Down(a, log, id)
  {
    hide Down;
    var o := Down(a, log, id);
    assert [id][1..] == [] && DownIds(a, o.log, []) == Outcome(o.log, true);
  }

  lemma {:induction false} DownFromIds(a: Answers, log: Log, devices: seq<Device>, master: int)
    ensures var o := DownFrom(a, log, devices);
            DownIds(a, log, Ids(devices) + [master]) == if o.ok then Down(a, o.log, master) else o
    decreases |devices|
  {
    hide Down;
    var ids := Ids(devices) + [master];
    if devices == [] {
      assert ids == [master];
      DownOneId(a, log, master);
    } else if devices[0].name == "master" {
      assert ids == Ids(devices[1..]) + [master];
      DownFromIds(a, log, devices[1..], master);
    } else {
      var o := Down(a, log, devices[0].id);
      assert ids[0] == devices[0].id && ids[1..] == Ids(devices[1..]) + [master];
      if o.ok { DownFromIds(a, o.log, devices[1..], master); }
    }
  }

  lemma DownShape(a: Answers, log: Log, id: int)
    ensures var o := Down(a, log, id);
            && log <= o.log && |o.log| == |log| + 3 && AsksDown(o.log[|log|..], 0, id)
            && (o.ok <==> o.log[|log|..][2].state == Unconfigured)
  {
  }

  lemma {:induction false} DownIdsShape(a: Answers, log: Log, ids: seq<int>)
    ensures var o := DownIds(a, log, ids);
            && log <= o.log
            && if o.ok then WentDown(o.log[|log|..], ids, |ids|) && |o.log| == |log| + 3 * |ids|
               else exists n: nat :: StuckAt(o.log[|log|..], ids, n)
    decreases |ids|
  {
    hide Down, AsksDown;
    if ids != [] {
      var first := Down(a, log, ids[0]);
      DownShape(a, log, ids[0]);
      var part := first.log[|log|..];
      if first.ok {
        DownIdsShape(a, first.log, ids[1..]);
        var o := DownIds(a, first.log, ids[1..]);
        var rest := o.log[|first.log|..];
        assert o.log[|log|..] == part + rest;
        if o.ok {
          DownThenDown(part, rest, ids, |ids| - 1);
        } else {
          var n: nat :| StuckAt(rest, ids[1..], n);
          DownThenStuck(part, rest, ids, n);
        }
      } else {
        assert StuckAt(part, ids, 0);
      }
    }
  }

  lemma DownThenDown(part: Log, rest: Log, ids: seq<int>, n: nat)
    requires |part| == 3 && ids != [] && GoesDown(part, 0, ids[0]) && WentDown(rest, ids[1..], n)
    ensures WentDown(part + rest, ids, n + 1)
  {
    forall i | 0 <= i < n + 1
      ensures GoesDown(part + rest, 3 * i, ids[i])
    {
      if i > 0 {
        assert GoesDown(rest, 3 * (i - 1), ids[1..][i - 1]);
      }
    }
  }

  lemma DownThenStuck(part: Log, rest: Log, ids: seq<int>, n: nat)
    requires |part| == 3 && ids != [] && GoesDown(part, 0, ids[0]) && StuckAt(rest, ids[1..], n)
    ensures StuckAt(part + rest, ids, n + 1)
  {
    DownThenDown(part, rest, ids, n);
    hide WentDown;
  }

  /** Bringing down succeeds exactly when the requests are these, in this order: for every device
      not called "master", and at last for the master, to deactivate, to clean up, whatever the
      success, and for the state, answered unconfigured. Otherwise it stops with the first
      device that answers with another state. */
  lemma DownAllExactly(a: Answers, master: int, devices: seq<Device>)
    ensures var o := DownAll(a, [], master, devices);
            var ids := Ids(devices) + [master];
            && (o.ok <==> WentDown(o.log, ids, |ids|) && |o.log| == 3 * |ids|)
            && (!o.ok ==> exists n: nat :: StuckAt(o.log, ids, n))
  {
    var ids := Ids(devices) + [master];
    DownFromIds(a, [], devices, master);
    DownIdsShape(a, [], ids);
    var o := DownIds(a, [], ids);
    assert o.log[0..] == o.log;
    hide Down, AsksDown;
  }

  // ----- Answers -----

  /** Every request is logged with its own answer. */
  predicate Honest(a: Answers, log: Log) {
    forall k: nat :: k < |log| ==>
      if log[k].Asked? then log[k].state == a(k).state else log[k].success == a(k).success
  }

  lemma {:induction false} UpFromHonest(a: Answers, log: Log, master: int, devices: seq<Device>)
    requires Honest(a, log)
    ensures Honest(a, UpFrom(a, log, master, devices).log)
    decreases |devices|
  {
    if devices != [] {
      hide Contains;
      if IsMaster(devices[0]) {
        UpFromHonest(a, log, master, devices[1..]);
      } else {
        var o := UpDriver(a, log, master, devices[0].id);
        if o.ok { UpFromHonest(a, o.log, master, devices[1..]); }
      }
    }
  }

  lemma {:induction false} DownIdsHonest(a: Answers, log: Log, ids: seq<int>)
    requires Honest(a, log)
    ensures Honest(a, DownIds(a, log, ids).log)
    decreases |ids|
  {
    if ids != [] {
      var o := Down(a, log, ids[0]);
      if o.ok { DownIdsHonest(a, o.log, ids[1..]); }
    }
  }

  lemma UpMasterHonest(a: Answers, master: int)
    ensures Honest(a, UpMaster(a, [], master).log)
  {
  }

  /** The answers that count are the ones that were given. */
  lemma AnswersAreLogged(a: Answers, master: int, devices: seq<Device>)
    ensures Honest(a, UpAll(a, [], master, devices).log) && Honest(a, DownAll(a, [], master, devices).log)
  {
    UpMasterHonest(a, master);
    hide UpFrom, DownFrom, DownIds, UpMaster, Down;
    var m := UpMaster(a, [], master);
    if m.ok { UpFromHonest(a, m.log, master, devices); }
    DownFromIds(a, [], devices, master);
    DownIdsHonest(a, [], Ids(devices) + [master]);
  }

  /** For bringing up, every device with "master" somewhere in its name counts as the master. */
  lemma MasterByName(d: Device)
    ensures IsMaster(d) <==> exists x: string, y: string :: d.name == x + "master" + y
  {
    var s, t := d.name, "master";
    if IsMaster(d) {
      var i :| 0 <= i <= |s| && t <= s[i..];
      assert s == s[..i] + t + s[i + |t|..];
    }
    if exists x: string, y: string :: s == x + t + y {
      var x: string, y: string :| s == x + t + y;
      assert t <= s[|x|..];
    }
  }

  /** The master is not asked to deactivate before every other device has answered unconfigured. */
  predicate MasterGoesLast(log: Log, master: int, devices: seq<Device>) {
    forall k :: 0 <= k < |log| && log[k].Changed? && log[k].id == master && log[k].transition == Deactivate ==>
      forall d <- devices :: d.id != master ==> Asked(d.id, Unconfigured) in log[..k]
  }

  /** Exactly one device is called a master, and its id is the one loaded for the master. */
  predicate OneMaster(devices: seq<Device>, master: int, m: int) {
    && UniqueIds(devices) && 0 <= m < |devices| && devices[m].id == master
    && forall i :: 0 <= i < |devices| ==> (IsMaster(devices[i]) <==> i == m)
  }

  lemma CalledMaster(d: Device)
    requires d.name == "master"
    ensures IsMaster(d)
  {
    assert "master" <= d.name[0..];
  }

  lemma EarlierIsIn(log: Log, more: Log, k: int, r: Request)
    requires log <= more && |log| <= k <= |more| && r in log
    ensures r in more[..k]
  {
    var i :| 0 <= i < |log| && log[i] == r;
    assert more[..k][i] == r;
  }

  /** After a part x of the devices without the master's id, bringing down the master is late enough. */
  lemma LateEnough(a: Answers, master: int, devices: seq<Device>, x: seq<Device>, log: Log)
    requires forall d <- x :: d.id == master ==> d.name == "master"
    requires forall d <- devices :: d.id != master ==> d in x && d.name != "master"
    requires var o := DownFrom(a, [], x); o.log <= log && (!o.ok ==> log == o.log)
    ensures MasterGoesLast(log, master, devices)
  {
    DownFromFacts(a, [], x);
    DownFromUntouched(a, [], x, master);
    var o := DownFrom(a, [], x);
    assert o.log[0..] == o.log;
    assert forall i :: 0 <= i < |o.log| ==> o.log[i] in o.log;
    forall k | 0 <= k < |log| && log[k].Changed? && log[k].id == master && log[k].transition == Deactivate
      ensures forall d <- devices :: d.id != master ==> Asked(d.id, Unconfigured) in log[..k]
    {
      if o.ok {
        forall d | d in devices && d.id != master
          ensures Asked(d.id, Unconfigured) in log[..k]
        {
          EarlierIsIn(o.log, log, k, Asked(d.id, Unconfigured));
        }
      }
    }
  }

  /** Bringing down keeps the order for all answers exactly when the master is called just
      "master", or comes last in the map anyway: the comparison with "master" is exact here,
      while elsewhere a name that contains it is enough. */
  lemma DownKeepsOrderExactly(master: int, devices: seq<Device>, m: int)
    requires OneMaster(devices, master, m)
    ensures (forall a: Answers :: MasterGoesLast(DownAll(a, [], master, devices).log, master, devices)) <==>
            devices[m].name == "master" || m == |devices| - 1
  {
    if devices[m].name == "master" || m == |devices| - 1 {
      forall a: Answers
        ensures MasterGoesLast(DownAll(a, [], master, devices).log, master, devices)
      {
        DownInOrder(a, master, devices, m);
      }
    } else {
      DownOutOfOrder(master, devices, m);
    }
  }

  lemma DownInOrder(a: Answers, master: int, devices: seq<Device>, m: int)
    requires OneMaster(devices, master, m) && (devices[m].name == "master" || m == |devices| - 1)
    ensures MasterGoesLast(DownAll(a, [], master, devices).log, master, devices)
  {
    hide DownFrom, Down, MasterGoesLast, Contains;
    var x := if devices[m].name == "master" then devices else devices[..m];
    forall d | d in devices && d.id != master
      ensures d in x && d.name != "master"
    {
      var i :| 0 <= i < |devices| && devices[i] == d;
      if d.name == "master" { CalledMaster(d); }
      assert i < |x| && x[i] == d;
    }
    DownFromFacts(a, [], devices);
    if devices[m].name != "master" {
      assert devices == x + devices[m..];
      DownFromSplits(a, [], x, devices[m..]);
      DownFromFacts(a, DownFrom(a, [], x).log, devices[m..]);
    }
    DownShape(a, DownFrom(a, [], devices).log, master);
    LateEnough(a, master, devices, x, DownAll(a, [], master, devices).log);
  }

  lemma {:induction false} GoodAnswersPass(a: Answers, log: Log, x: seq<Device>)
    requires forall n: nat :: a(n) == Answer(Unconfigured, true)
    ensures DownFrom(a, log, x).ok
    decreases |x|
  {
    if x != [] {
      var o := if x[0].name == "master" then Outcome(log, true) else Down(a, log, x[0].id);
      GoodAnswersPass(a, o.log, x[1..]);
    }
  }

  lemma DownOutOfOrder(master: int, devices: seq<Device>, m: int)
    requires OneMaster(devices, master, m) && devices[m].name != "master" && m < |devices| - 1
    ensures exists a: Answers :: !MasterGoesLast(DownAll(a, [], master, devices).log, master, devices)
  {
    var a: Answers := n => Answer(Unconfigured, true);
    var x, y := devices[..m], devices[m..];
    assert devices == x + y;
    DownFromSplits(a, [], x, y);
    GoodAnswersPass(a, [], devices);
    GoodAnswersPass(a, [], x);
    DownFromUntouched(a, [], x, devices[m + 1].id);
    var before := DownFrom(a, [], x).log;
    var here := Down(a, before, master).log;
    DownFromFacts(a, here, y[1..]);
    var log := DownAll(a, [], master, devices).log;
    var k := |before|;
    assert here[k] == Changed(master, Deactivate, true) && here <= log;
    assert log[k] == Changed(master, Deactivate, true) && log[..k] == before;
    var next := devices[m + 1];
    assert before[0..] == before;
    assert Untouched(before, next.id);
    assert next in devices && next.id != master;
    assert Asked(next.id, Unconfigured) !in log[..k];
  }
}
