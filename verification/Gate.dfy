/** The process-wide runtime gate: opened at most once, never again after a close. */
module Gate {
  datatype Control = Closed | Open | FailedClosed

  /** `control` decides, `flag` is what readers see. */
  datatype GateState = GateState(control: Control, flag: bool) {
    function Opened(): GateState { if control == Closed then GateState(Open, true) else this }
    function ControlClosed(): GateState { GateState(FailedClosed, flag) }
    function FlagCleared(): GateState { GateState(control, false) }
  }

  class RuntimeGate {
    var control: Control
    var flag: bool

    constructor ()
      ensures View() == GateState(Closed, false)
    {
      control, flag := Closed, false;
    }

    function View(): GateState
      reads this
    {
      GateState(control, flag)
    }

    method TryOpen() returns (done: bool)
      modifies this
      ensures View() == old(View()).Opened()
      ensures done == old(control == Closed)
      ensures done ==> control == Open && flag
      ensures !done ==> control == old(control) && flag == old(flag)
    {
      if control != Closed {
        return false;
      }
      control := Open;
      flag := true;
      return true;
    }

    method Close()
      modifies this
      ensures View() == old(View()).ControlClosed().FlagCleared()
      ensures control == FailedClosed && !flag
    {
      control := FailedClosed;
      flag := false;
    }
  }

  // Two threads: one opening, one closing

  /** The single stores `open` and `close` are made of. */
  datatype Store = OpenSwap | OpenFlag | CloseControl | CloseFlag

  datatype Race = Race(gate: GateState, won: bool)

  function Perform(r: Race, s: Store): Race
  {
    match s
    case OpenSwap => if r.gate.control == Closed then Race(r.gate.(control := Open), true) else r.(won := false)
    case OpenFlag => if r.won then r.(gate := r.gate.(flag := true)) else r
    case CloseControl => r.(gate := r.gate.ControlClosed())
    case CloseFlag => r.(gate := r.gate.FlagCleared())
  }

  function PerformAll(r: Race, stores: seq<Store>): Race
    decreases |stores|
  {
    if stores == [] then r else PerformAll(Perform(r, stores[0]), stores[1..])
  }

  /** `w` and `x` are where `open`'s two stores fall among `close`'s two, each thread in its own order. */
  function Interleaving(w: nat, x: nat): seq<Store>
    requires w <= x <= 2
  {
    var close := [CloseControl, CloseFlag];
    close[..w] + [OpenSwap] + close[w..x] + [OpenFlag] + close[x..]
  }

  /** A closed gate is left reading open exactly when the whole close falls between open's two stores. */
  lemma OpenIsNotAtomic(w: nat, x: nat)
    requires w <= x <= 2
    ensures var end := PerformAll(Race(GateState(Closed, false), false), Interleaving(w, x));
      end.gate.control == FailedClosed && (end.gate.flag <==> w == 0 && x == 2)
  {
    var close := [CloseControl, CloseFlag];
    var start := Race(GateState(Closed, false), false);
    if w == 0 && x == 0 {
      assert Interleaving(w, x) == [OpenSwap, OpenFlag, CloseControl, CloseFlag];
    } else if w == 0 && x == 1 {
      assert Interleaving(w, x) == [OpenSwap, CloseControl, OpenFlag, CloseFlag];
    } else if w == 0 {
      assert Interleaving(w, x) == [OpenSwap, CloseControl, CloseFlag, OpenFlag];
    } else if w == 1 && x == 1 {
      assert Interleaving(w, x) == [CloseControl, OpenSwap, OpenFlag, CloseFlag];
    } else if w == 1 {
      assert Interleaving(w, x) == [CloseControl, OpenSwap, CloseFlag, OpenFlag];
    } else {
      assert Interleaving(w, x) == [CloseControl, CloseFlag, OpenSwap, OpenFlag];
    }
    Four(start, Interleaving(w, x));
  }

  lemma Four(r: Race, s: seq<Store>)
    requires |s| == 4
    ensures PerformAll(r, s) == Perform(Perform(Perform(Perform(r, s[0]), s[1]), s[2]), s[3])
  {
    hide Perform;
    var r1, r2 := Perform(r, s[0]), Perform(Perform(r, s[0]), s[1]);
    assert s[1..][1..] == s[2..] && s[2..][1..] == [s[3]];
    assert PerformAll(r, s) == PerformAll(r1, s[1..]) == PerformAll(r2, s[2..]);
    var r3 := Perform(r2, s[2]);
    assert PerformAll(r2, s[2..]) == PerformAll(r3, [s[3]]);
    assert [s[3]][1..] == [];
    assert PerformAll(r3, [s[3]]) == PerformAll(Perform(r3, s[3]), []);
  }
}
