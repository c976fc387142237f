/** The homing handler and its four waits (canopen_402_driver/src/default_homing_mode.cpp).
    The statuses the waiting thread finds are a stream; a deadline is the position in the
    stream after which a wait gives up. */
module Homing {
  import opened Word16
  import opened Wrappers
  import opened State402
  import opened Command402
  import opened Modes

  const REACHED := SW_TARGET_REACHED
  const ATTAINED := SW_MODE_SPECIFIC0
  const ERROR := SW_MODE_SPECIFIC1

  /** What the waits wait for, in order. */
  predicate Ready(stage: nat, s: Word) {
    match stage
    case 0 => s * {ERROR, REACHED} != {}                       // not running before the start
    case 1 => s * {ERROR, ATTAINED, REACHED} != {REACHED}      // it has started
    case 2 => s * {ERROR, ATTAINED} != {}                      // attained
    case _ => s * {ERROR, REACHED} != {}                       // motion has stopped
  }

  datatype Outcome =
    | Homed
    | TimedOut(stage: nat)
    | Failed(stage: nat)     // the error bit is set when the wait of this stage ends
    | NotAttained            // stopped, but not at the home position

  /** The statuses that are seen, by position: position 0 is the one stored before the call. */
  type Stream = seq<Word>

  /** A wait from position i on: the first position that satisfies it, or None when the
      deadline or the end of the stream comes first. The current status always counts. */
  function Await(s: Stream, stage: nat, i: nat, deadline: nat): Option<nat>
    requires i < |s|
    ensures Await(s, stage, i, deadline).Some? ==>
              var j := Await(s, stage, i, deadline).value;
              i <= j < |s| && Ready(stage, s[j]) && (forall k :: i <= k < j ==> !Ready(stage, s[k])) &&
              (j == i || j <= deadline)
    ensures Await(s, stage, i, deadline).None? ==>
              forall k :: i <= k < |s| && (k == i || k <= deadline) ==> !Ready(stage, s[k])
    decreases |s| - i
  {
    if Ready(stage, s[i]) then Some(i)
    else if i + 1 < |s| && i + 1 <= deadline then Await(s, stage, i + 1, deadline)
    else None
  }

  /** The four stages from stage k at position i; the first two share one deadline, the
      last two another. */
  function Stages(s: Stream, k: nat, i: nat, prepare: nat, finish: nat): Outcome
    requires i < |s| && k <= 4
    decreases 4 - k
  {
    if k == 4 then
      if REACHED in s[i] && ATTAINED in s[i] then Homed else NotAttained
    else
      match Await(s, k, i, if k < 2 then prepare else finish)
      case None => TimedOut(k)
      case Some(j) => if ERROR in s[j] then Failed(k) else Stages(s, k + 1, j, prepare, finish)
  }

  /** Position j is the first from i on that satisfies the stage, and it comes before the deadline. */
  predicate First(s: Stream, stage: nat, i: nat, deadline: nat, j: nat) {
    && i <= j < |s| && Ready(stage, s[j])
    && (forall k :: i <= k < j ==> !Ready(stage, s[k]))
    && (j == i || j <= deadline)
  }

  /** The four waits end at a, b, c and d, none at an error, and the last one at home, at rest. */
  predicate HomesAt(s: Stream, prepare: nat, finish: nat, a: nat, b: nat, c: nat, d: nat) {
    && First(s, 0, 0, prepare, a) && First(s, 1, a, prepare, b)
    && First(s, 2, b, finish, c) && First(s, 3, c, finish, d)
    && ERROR !in s[a] && ERROR !in s[b] && ERROR !in s[c] && ERROR !in s[d]
    && REACHED in s[d] && ATTAINED in s[d]
  }

  /** The motor is told to home from position a on: the first wait has ended there, without an error. */
  predicate Begun(s: Stream, prepare: nat, k: nat) {
    exists a: nat :: a <= k && First(s, 0, 0, prepare, a) && ERROR !in s[a]
  }

  /** The flag has been so during n statuses. */
  ghost function Held(execute: bool, n: nat): (held: seq<bool>)
    ensures |held| == n && forall k :: 0 <= k < n ==> held[k] == execute
  {
    seq(n, _ => execute)
  }

  class DefaultHomingMode {
    var execute: bool
    var status: Word

    constructor (anyFlag: bool, anyStatus: Word)
      ensures execute == anyFlag && status == anyStatus
    {
      execute, status := anyFlag, anyStatus;
    }

    function Value(): Mode
      reads this
    {
      Mode.Homing(execute, status)
    }

    method Read(sw: Word) returns (ok: bool)
      modifies this`status
      ensures ok && Value() == ReadMode(old(Value()), sw)
    {
      status := sw * HOMING_STATUS;
      ok := true;
    }

    method Start() returns (ok: bool)
      modifies this
      ensures ok && Value() == StartMode(old(Value()))
    {
      execute := false;
      ok := Read({});
    }

    method Write(cw: WordAccessor) returns (ok: bool)
      requires cw.mask == MODE_BITS
      modifies cw.cell
      ensures WriteMode(old(Value()), old(cw.cell.word)) == Written(Value(), cw.cell.word, None, ok)
      ensures Value() == old(Value())
    {
      cw.Put({});
      if execute {
        var _ := cw.Set(CW_MODE0);
        return true;
      }
      return false;
    }

    method Wait(stage: nat, s: Stream, i: nat, deadline: nat) returns (ok: bool, j: nat)
      requires i < |s| && status == s[i]
      modifies this`status
      ensures ok == Await(s, stage, i, deadline).Some?
      ensures ok ==> j == Await(s, stage, i, deadline).value
      ensures i <= j < |s| && status == s[j]
    {
      j := i;
      while !Ready(stage, status) && j + 1 < |s| && j + 1 <= deadline
        invariant i <= j < |s| && status == s[j]
        invariant Await(s, stage, i, deadline) == Await(s, stage, j, deadline)
      {
        j := j + 1;
        status := s[j];
      }
      ok := Ready(stage, status);
    }

    method Error() returns (ok: bool)
      modifies this`execute
      ensures !ok && !execute
    {
      execute := false;
      ok := false;
    }

    /** `method_` is the homing method read from the drive, `s` the masked statuses seen. The
        flags tell what the poll thread reads of the execute flag while each of them is the
        current one and the call goes on: false until homing has begun, true from then on. */
    method ExecuteHoming(method_: int, s: Stream, prepare: nat, finish: nat) returns (ok: bool, ghost flags: seq<bool>)
      requires |s| > 0 && s[0] == status
      modifies this
      ensures method_ == 0 ==> ok && Value() == old(Value()) && flags == []
      ensures method_ != 0 ==> ok == (Stages(s, 0, 0, prepare, finish) == Homed) && !execute
      ensures method_ != 0 ==> 0 < |flags| <= |s|
      ensures forall k :: 0 <= k < |flags| ==> (flags[k] <==> old(execute) || Begun(s, prepare, k))
      ensures method_ != 0 && ok ==>
                exists a: nat, b: nat, c: nat, d: nat ::
                  HomesAt(s, prepare, finish, a, b, c, d) && |flags| == d + 1
    {
      hide Ready, HomesAt;
      if method_ == 0 {
        return true, [];
      }
      var found, i := Wait(0, s, 0, prepare);
      flags := Held(execute, i);
      if !found || ERROR in status {
        flags := flags + [execute];
        NotBegun(s, prepare, i);
        ok := Error();
        return;
      }
      AwaitIsFirst(s, 0, 0, prepare, i);
      BegunFrom(s, prepare, i);
      execute := true;
      ghost var rest;
      ok, rest := AwaitHome(s, i, prepare, finish);
      flags := flags + rest;
    }

    /** The waits after the start. */
    method AwaitHome(s: Stream, a: nat, prepare: nat, finish: nat) returns (ok: bool, ghost flags: seq<bool>)
      requires a < |s| && s[a] == status && execute && First(s, 0, 0, prepare, a) && ERROR !in s[a]
      modifies this
      ensures !execute && ok == (Stages(s, 1, a, prepare, finish) == Homed)
      ensures 0 < |flags| <= |s| - a && forall k :: 0 <= k < |flags| ==> flags[k]
      ensures ok ==>
                exists b: nat, c: nat, d: nat ::
                  HomesAt(s, prepare, finish, a, b, c, d) && a + |flags| == d + 1
    {
      hide Ready;
      var found, b := Wait(1, s, a, prepare);
      flags := Held(execute, b - a);
      if !found || ERROR in status {
        flags := flags + [execute];
        ok := Error();
        return;
      }
      AwaitIsFirst(s, 1, a, prepare, b);
      var c: nat;
      found, c := Wait(2, s, b, finish);
      flags := flags + Held(execute, c - b);
      if !found || ERROR in status {
        flags := flags + [execute];
        ok := Error();
        return;
      }
      AwaitIsFirst(s, 2, b, finish, c);
      var d: nat;
      found, d := Wait(3, s, c, finish);
      flags := flags + Held(execute, d - c) + [execute];
      if !found || ERROR in status {
        ok := Error();
        return;
      }
      AwaitIsFirst(s, 3, c, finish, d);
      if REACHED in status && ATTAINED in status {
        execute := false;
        assert HomesAt(s, prepare, finish, a, b, c, d);
        return true, flags;
      }
      ok := Error();
    }
  }

  /** The first wait has not ended well before position i, at which it ends. */
  lemma NotBegun(s: Stream, prepare: nat, i: nat)
    requires i < |s|
    requires var w := Await(s, 0, 0, prepare); w == None || (w == Some(i) && ERROR in s[i])
    ensures forall k :: 0 <= k <= i ==> !Begun(s, prepare, k)
  {
    hide Ready;
    forall a: nat | First(s, 0, 0, prepare, a) ensures Await(s, 0, 0, prepare) == Some(a) {
      AwaitIsFirst(s, 0, 0, prepare, a);
    }
  }

  lemma BegunFrom(s: Stream, prepare: nat, i: nat)
    requires First(s, 0, 0, prepare, i) && ERROR !in s[i]
    ensures forall k: nat :: Begun(s, prepare, k) <==> i <= k
  {
    hide Ready;
  }

  /** A wait ends exactly at the first position that satisfies it. */
  lemma AwaitIsFirst(s: Stream, stage: nat, i: nat, deadline: nat, j: nat)
    requires i < |s|
    ensures Await(s, stage, i, deadline) == Some(j) <==> First(s, stage, i, deadline, j)
  {
  }

  /** For every stream of statuses and every pair of deadlines, errors and lost bits included:
      homing succeeds if and only if the four waits end in time, without an error, and the
      last of them with the home position attained and the target reached. */
  lemma HomedExactly(s: Stream, prepare: nat, finish: nat)
    requires |s| > 0
    ensures Stages(s, 0, 0, prepare, finish) == Homed <==>
            exists a: nat, b: nat, c: nat, d: nat :: HomesAt(s, prepare, finish, a, b, c, d)
  {
    hide Ready;
    if Stages(s, 0, 0, prepare, finish) == Homed {
      var a := Await(s, 0, 0, prepare).value;
      assert Stages(s, 1, a, prepare, finish) == Homed;
      var b := Await(s, 1, a, prepare).value;
      assert Stages(s, 2, b, prepare, finish) == Homed;
      var c := Await(s, 2, b, finish).value;
      assert Stages(s, 3, c, prepare, finish) == Homed;
      var d := Await(s, 3, c, finish).value;
      assert Stages(s, 4, d, prepare, finish) == Homed;
      assert HomesAt(s, prepare, finish, a, b, c, d);
    }
    if exists a: nat, b: nat, c: nat, d: nat :: HomesAt(s, prepare, finish, a, b, c, d) {
      var a: nat, b: nat, c: nat, d: nat :| HomesAt(s, prepare, finish, a, b, c, d);
      AwaitIsFirst(s, 0, 0, prepare, a);
      AwaitIsFirst(s, 1, a, prepare, b);
      AwaitIsFirst(s, 2, b, finish, c);
      AwaitIsFirst(s, 3, c, finish, d);
      assert Stages(s, 4, d, prepare, finish) == Homed;
      assert Stages(s, 3, c, prepare, finish) == Homed;
      assert Stages(s, 2, b, prepare, finish) == Homed;
      assert Stages(s, 1, a, prepare, finish) == Homed;
    }
  }

  /** Positions that witness the four stages in order, none of them an error. */
  predicate Witnesses(s: Stream, a: nat, b: nat, c: nat, d: nat) {
    && a <= b <= c <= d < |s|
    && REACHED in s[a] && ERROR !in s[a]
    && (ATTAINED in s[b] || REACHED !in s[b]) && ERROR !in s[b]
    && ATTAINED in s[c] && ERROR !in s[c]
    && REACHED in s[d] && ATTAINED in s[d] && ERROR !in s[d]
  }

  /** Homing succeeds only if the drive was ready, then left the target, then reported the
      home position attained, and is now at rest there: four moments of the stream in this
      order, all without error. */
  lemma HomedIsWitnessed(s: Stream, prepare: nat, finish: nat)
    requires |s| > 0 && Stages(s, 0, 0, prepare, finish) == Homed
    ensures exists a: nat, b: nat, c: nat, d: nat :: Witnesses(s, a, b, c, d)
  {
    var a := Await(s, 0, 0, prepare).value;
    var b := Await(s, 1, a, prepare).value;
    var c := Await(s, 2, b, finish).value;
    var d := Await(s, 3, c, finish).value;
    assert Stages(s, 1, a, prepare, finish) == Homed;
    assert Stages(s, 2, b, prepare, finish) == Homed;
    assert Stages(s, 3, c, prepare, finish) == Homed;
    assert Stages(s, 4, d, prepare, finish) == Homed;
    assert REACHED in s[a] by {
      assert forall x <- s[a] * {ERROR, REACHED} :: x == REACHED;
    }
    assert s[b] * {ERROR, ATTAINED, REACHED} ==
           (if ATTAINED in s[b] then {ATTAINED} else {}) + (if REACHED in s[b] then {REACHED} else {});
    assert ATTAINED in s[c] by {
      assert forall x <- s[c] * {ERROR, ATTAINED} :: x == ATTAINED;
    }
    assert Witnesses(s, a, b, c, d);
  }

  /** The waits miss nothing: if the status never shows an error and the witnesses exist
      before the deadlines, and the home position stays attained once it is, homing succeeds. */
  lemma WitnessedIsHomed(s: Stream, prepare: nat, finish: nat, a: nat, b: nat, c: nat, d: nat)
    requires |s| > 0 && Witnesses(s, a, b, c, d)
    requires forall w <- s :: ERROR !in w
    requires forall i, j :: 0 <= i < j < |s| && ATTAINED in s[i] ==> ATTAINED in s[j]
    requires b <= prepare && d <= finish
    ensures Stages(s, 0, 0, prepare, finish) == Homed
  {
    assert REACHED in s[a] * {ERROR, REACHED};
    AwaitBefore(s, 0, 0, prepare, a);
    var a' := Await(s, 0, 0, prepare).value;
    assert Ready(1, s[b]) by {
      if ATTAINED in s[b] {
        assert ATTAINED in s[b] * {ERROR, ATTAINED, REACHED};
      } else {
        assert REACHED !in s[b] * {ERROR, ATTAINED, REACHED};
      }
    }
    AwaitBefore(s, 1, a', prepare, b);
    var b' := Await(s, 1, a', prepare).value;
    assert ATTAINED in s[c] * {ERROR, ATTAINED};
    AwaitBefore(s, 2, b', finish, c);
    var c' := Await(s, 2, b', finish).value;
    assert REACHED in s[d] * {ERROR, REACHED};
    AwaitBefore(s, 3, c', finish, d);
    var d' := Await(s, 3, c', finish).value;
    assert forall x <- s[c'] * {ERROR, ATTAINED} :: x == ATTAINED;
    assert forall x <- s[d'] * {ERROR, REACHED} :: x == REACHED;
    assert Stages(s, 4, d', prepare, finish) == Homed;
    assert Stages(s, 3, c', prepare, finish) == Homed;
    assert Stages(s, 2, b', prepare, finish) == Homed;
    assert Stages(s, 1, a', prepare, finish) == Homed;
  }

  lemma AwaitBefore(s: Stream, stage: nat, i: nat, deadline: nat, j: nat)
    requires i <= j < |s| && Ready(stage, s[j]) && j <= deadline
    ensures Await(s, stage, i, deadline).Some? && Await(s, stage, i, deadline).value <= j
  {
  }
}
