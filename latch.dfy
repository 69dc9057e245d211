/** withTimeout (coup-backend/src/socket/utils/emitUtil.ts): a wrapper that runs
    onSuccess with its arguments or, if the timer fires first, onTimeout, and never
    both. The closure's `called` flag and timer become the fields of a latch; the two
    callbacks are recorded as effects instead of being run. */
module Latches {

  /** A callback that has run: onSuccess with the arguments it was given, or onTimeout. */
  datatype Effect<T> = Success(args: T) | TimedOut

  /** What can happen to the latch: the wrapper is invoked, or the timer fires. */
  datatype Trigger<T> = Invoke(args: T) | TimerFires

  class TimeoutLatch<T> {
    /** The closure's `called` flag. */
    var called: bool
    /** clearTimeout has run: the timer will not fire. */
    var timerCleared: bool
    /** The callbacks run so far, in order. */
    var effects: seq<Effect<T>>

    ghost predicate Valid()
      reads this
    {
      |effects| <= 1 && (called <==> |effects| == 1) &&
      (timerCleared ==> called && effects[0].Success?)
    }

    /** withTimeout(onSuccess, onTimeout, timeout): the timer is armed, nothing has run. */
    constructor ()
      ensures Valid() && !called && !timerCleared && effects == []
    {
      called := false;
      timerCleared := false;
      effects := [];
    }

    /** The returned wrapper: the first call to settle the latch clears the timer and
        runs onSuccess with its own arguments; once settled it does nothing. */
    method Invoke(args: T)
      requires Valid()
      modifies this
      ensures Valid()
      ensures old(called) ==> called && timerCleared == old(timerCleared) && effects == old(effects)
      ensures !old(called) ==> called && timerCleared && effects == [Success(args)]
    {
      if called {
        return;
      }
      called := true;
      timerCleared := true;
      effects := effects + [Success(args)];
    }

    /** The timer's callback: a cleared timer never fires, and a fired timer on a
        settled latch does nothing; otherwise it settles the latch and runs onTimeout. */
    method TimerFires()
      requires Valid()
      modifies this
      ensures Valid()
      ensures old(called) ==> called && timerCleared == old(timerCleared) && effects == old(effects)
      ensures !old(called) ==> called && !timerCleared && effects == [TimedOut]
    {
      if timerCleared || called {
        return;
      }
      called := true;
      effects := effects + [TimedOut];
    }
  }

  /** The callbacks that run for a sequence of triggers: the first trigger decides. */
  function Effects<T>(triggers: seq<Trigger<T>>): (es: seq<Effect<T>>)
    ensures |es| <= 1
    ensures es == [] <==> triggers == []
  {
    if triggers == [] then []
    else match triggers[0]
      case Invoke(args) => [Success(args)]
      case TimerFires => [TimedOut]
  }

  /** Drives a fresh latch through the triggers, in order, and reports what ran. */
  method RunLatch<T>(triggers: seq<Trigger<T>>) returns (effects: seq<Effect<T>>)
    ensures effects == Effects(triggers)
  {
    var latch := new TimeoutLatch<T>();
    var i := 0;
    while i < |triggers|
      invariant 0 <= i <= |triggers|
      invariant latch.Valid()
      invariant latch.effects == Effects(triggers[..i])
    {
      PrefixEffects(triggers, i);
      match triggers[i] {
        case Invoke(args) => latch.Invoke(args);
        case TimerFires => latch.TimerFires();
      }
      i := i + 1;
    }
    assert triggers[..i] == triggers;
    effects := latch.effects;
  }

  /** Adding a trigger after the first changes nothing. */
  lemma PrefixEffects<T>(triggers: seq<Trigger<T>>, i: nat)
    requires i < |triggers|
    ensures i > 0 ==> Effects(triggers[..i + 1]) == Effects(triggers[..i])
    ensures i == 0 ==> Effects(triggers[..1]) == Effects([triggers[0]])
  {
    if i > 0 {
      assert triggers[..i + 1][0] == triggers[..i][0];
    }
  }

  /** The timer is always armed, so once it has fired exactly one callback has run. */
  lemma ExactlyOneAfterTimer<T>(triggers: seq<Trigger<T>>, k: nat)
    requires k < |triggers| && triggers[k] == TimerFires
    ensures |Effects(triggers)| == 1
  {
    assert triggers != [];
  }

  /** Once onSuccess has run, later invocations and the timer are no-ops. */
  lemma LaterTriggersIgnored<T>(triggers: seq<Trigger<T>>, later: seq<Trigger<T>>)
    requires triggers != []
    ensures Effects(triggers + later) == Effects(triggers)
  {
    assert (triggers + later)[0] == triggers[0];
  }

  /** onSuccess runs only as the first trigger, and receives that invocation's
      arguments unchanged. */
  lemma SuccessGetsArguments<T>(triggers: seq<Trigger<T>>, args: T)
    requires Success(args) in Effects(triggers)
    ensures triggers[0] == Invoke(args)
  {
  }
}
