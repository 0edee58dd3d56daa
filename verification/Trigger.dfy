/**
  The folding, rate-limited trigger: its fields, the critical sections and channel operations that
  change them as methods of a class, and the functions those methods are proved against.
 */
module Trigger {
  import opened Options

  /** `minInterval` and all times are in the unit of the clock; `time.Time{}` is 0. */
  datatype Params = Params(minInterval: int, hasTriggerFunc: bool, hasShutdownFunc: bool)

  /** `slot`: the wake-up channel holds its one token. `closed`: the close channel is closed. */
  datatype Fields = Fields(flag: bool, numFolds: int, last: int, slot: bool, closed: bool)

  const ZERO_TIME := 0

  function NewFields(p: Params, now: int): Fields {
    Fields(false, 0, if p.minInterval > 0 then now - p.minInterval else ZERO_TIME, false, false)
  }

  function RequestOf(f: Fields): Fields {
    f.(flag := true, numFolds := f.numFolds + 1)
  }

  function WakeOf(f: Fields): Fields {
    f.(slot := true)
  }

  function ReceiveOf(f: Fields): Fields {
    f.(slot := false)
  }

  function TakeOf(f: Fields): Fields {
    f.(flag := false)
  }

  function StampOf(f: Fields, now: int): Fields {
    f.(last := now, numFolds := 0)
  }

  /** How long past the earliest allowed start it is; negative when it is too early. */
  function Lateness(p: Params, f: Fields, now: int): int {
    now - (f.last + p.minInterval)
  }

  predicate DelayNeeded(p: Params, f: Fields, now: int) {
    p.minInterval != 0 && Lateness(p, f, now) < 0
  }

  class Trigger {
    var trigger: bool
    var lastTrigger: int
    var wakeup: bool
    var closed: bool
    var numFolds: int
    const params: Params

    function Model(): Fields
      reads this
    {
      Fields(trigger, numFolds, lastTrigger, wakeup, closed)
    }

    constructor (p: Params, now: int)
      ensures params == p && Model() == NewFields(p, now)
    {
      params := p;
      trigger, numFolds, wakeup, closed := false, 0, false, false;
      lastTrigger := if p.minInterval > 0 then now - p.minInterval else ZERO_TIME;
    }

    /** Refuses parameters without a function to run. */
    static method NewTrigger(p: Params, now: int) returns (t: Option<Trigger>)
      ensures t.None? <==> !p.hasTriggerFunc
      ensures t.Some? ==> fresh(t.value) && t.value.params == p && t.value.Model() == NewFields(p, now)
      ensures t.Some? ==> !t.value.trigger && t.value.numFolds == 0 && !t.value.wakeup && !t.value.closed
      ensures t.Some? ==> t.value.lastTrigger == if p.minInterval > 0 then now - p.minInterval else 0
    {
      if !p.hasTriggerFunc {
        return None;
      }
      var n := new Trigger(p, now);
      t := Some(n);
    }

    /** The critical section of `Trigger`. */
    method Request()
      modifies this
      ensures Model() == RequestOf(old(Model()))
      ensures trigger && numFolds == old(numFolds) + 1
      ensures lastTrigger == old(lastTrigger) && wakeup == old(wakeup) && closed == old(closed)
    {
      trigger := true;
      numFolds := numFolds + 1;
    }

    /** The non-blocking send of `Trigger`. */
    method Wake()
      modifies this
      ensures Model() == WakeOf(old(Model()))
      ensures wakeup && trigger == old(trigger) && numFolds == old(numFolds)
      ensures lastTrigger == old(lastTrigger) && closed == old(closed)
    {
      if !wakeup {
        wakeup := true;
      }
    }

    method Trigger()
      modifies this
      ensures Model() == WakeOf(RequestOf(old(Model())))
      ensures trigger && wakeup && numFolds == old(numFolds) + 1
      ensures lastTrigger == old(lastTrigger) && closed == old(closed)
    {
      Request();
      Wake();
    }

    /** A second close would panic. */
    method Shutdown()
      requires !closed
      modifies this
      ensures Model() == old(Model()).(closed := true)
    {
      closed := true;
    }

    /** The first critical section of `waiter`. */
    method Take() returns (enabled: bool)
      modifies this
      ensures enabled == old(trigger) && Model() == TakeOf(old(Model()))
      ensures !trigger && numFolds == old(numFolds) && wakeup == old(wakeup)
      ensures lastTrigger == old(lastTrigger) && closed == old(closed)
    {
      enabled := trigger;
      trigger := false;
    }

    /** The delay is what is missing to `minInterval` after the last run. */
    method NeedsDelay(now: int) returns (needed: bool, delay: int)
      ensures needed == DelayNeeded(params, Model(), now)
      ensures needed <==> params.minInterval != 0 && now < lastTrigger + params.minInterval
      ensures needed ==> delay > 0 && now + delay == lastTrigger + params.minInterval
    {
      if params.minInterval == 0 {
        return false, 0;
      }
      var sleepTime := now - (lastTrigger + params.minInterval);
      needed, delay := sleepTime < 0, -sleepTime;
    }

    /** The second critical section of `waiter`, with the number it logs. */
    method Stamp(now: int) returns (folds: int)
      modifies this
      ensures folds == old(numFolds) && Model() == StampOf(old(Model()), now)
      ensures lastTrigger == now && numFolds == 0
      ensures trigger == old(trigger) && wakeup == old(wakeup) && closed == old(closed)
    {
      lastTrigger := now;
      folds := numFolds;
      numFolds := 0;
    }

    /** One pass of the loop in `waiter` with nobody else moving, up to the call of the function: whether
        there is one, when, and the number logged. A sleep takes exactly as long as it was asked to. */
    method Pass(now: int) returns (run: bool, at: int, folds: int)
      modifies this
      ensures run == old(trigger)
      ensures run ==> folds == old(numFolds) && Model() == StampOf(TakeOf(old(Model())), at)
      ensures run ==> !trigger && lastTrigger == at && numFolds == 0 && wakeup == old(wakeup) && closed == old(closed)
      ensures run ==> at == if params.minInterval != 0 && now < old(lastTrigger) + params.minInterval
                            then old(lastTrigger) + params.minInterval else now
      ensures !run ==> Model() == old(Model())
    {
      at, folds := now, 0;
      run := Take();
      if run {
        var needed, delay := NeedsDelay(now);
        if needed {
          at := now + delay;
        }
        folds := Stamp(at);
      }
    }

    /** The receive of `waiter`, once there is a token. */
    method Receive()
      requires wakeup
      modifies this
      ensures Model() == ReceiveOf(old(Model()))
      ensures !wakeup && trigger == old(trigger) && numFolds == old(numFolds)
      ensures lastTrigger == old(lastTrigger) && closed == old(closed)
    {
      wakeup := false;
    }
  }
}
