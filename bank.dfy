/** The lock demonstration: a shared balance `saldo` (initially 200) and
    two workers that each call `retirar(100, ...)`, which makes two
    withdrawal attempts. Each attempt checks and subtracts inside one
    `with lock:` block, so it is one atomic step; the threads themselves
    are modelled as an arbitrary serial order (a schedule) of those steps. */
module Bank {

  const InitialBalance: int := 200
  const AttemptsPerCall: nat := 2
  const DemoAmount: int := 100

  /** The two threads of the demonstration. */
  datatype Worker = Hilo1 | Hilo2

  // ---------------------------------------------------------------------
  // Specification: serial runs of guarded withdrawals

  /** Balance after the attempts `amounts`, one after the other. */
  function Run(saldo: int, amounts: seq<int>): int
    decreases |amounts|
  {
    if |amounts| == 0 then saldo
    else
      var last := amounts[|amounts| - 1];
      var before := Run(saldo, amounts[..|amounts| - 1]);
      if before >= last then before - last else before
  }

  /** Which of the attempts `amounts` were granted, in order. */
  function Outcomes(saldo: int, amounts: seq<int>): (r: seq<bool>)
    ensures |r| == |amounts|
    decreases |amounts|
  {
    if |amounts| == 0 then []
    else
      var prefix := amounts[..|amounts| - 1];
      Outcomes(saldo, prefix) + [Run(saldo, prefix) >= amounts[|amounts| - 1]]
  }

  /** Sum of the amounts whose attempt was granted. */
  function GrantedSum(amounts: seq<int>, granted: seq<bool>): int
    requires |granted| == |amounts|
    decreases |amounts|
  {
    if |amounts| == 0 then 0
    else
      var n := |amounts| - 1;
      GrantedSum(amounts[..n], granted[..n]) + (if granted[n] then amounts[n] else 0)
  }

  function CountGranted(granted: seq<bool>): nat
    decreases |granted|
  {
    if |granted| == 0 then 0
    else CountGranted(granted[..|granted| - 1]) + (if granted[|granted| - 1] then 1 else 0)
  }

  /** Order in which the attempts reach the lock: the amount of each step
      is the amount of the worker taking that step. */
  function ScheduledAmounts(schedule: seq<Worker>, amount1: int, amount2: int): (r: seq<int>)
    ensures |r| == |schedule|
    ensures forall i :: 0 <= i < |schedule| ==>
      r[i] == (if schedule[i] == Hilo1 then amount1 else amount2)
    decreases |schedule|
  {
    if |schedule| == 0 then []
    else [if schedule[0] == Hilo1 then amount1 else amount2] + ScheduledAmounts(schedule[1..], amount1, amount2)
  }

  function Steps(schedule: seq<Worker>, w: Worker): nat
    decreases |schedule|
  {
    if |schedule| == 0 then 0
    else Steps(schedule[1..], w) + (if schedule[0] == w then 1 else 0)
  }

  /** A schedule of the demonstration: each worker's `retirar` takes the
      lock exactly `AttemptsPerCall` times, in any interleaving. */
  predicate DemoSchedule(schedule: seq<Worker>)
  {
    Steps(schedule, Hilo1) == AttemptsPerCall && Steps(schedule, Hilo2) == AttemptsPerCall
  }

  // ---------------------------------------------------------------------
  // Properties of the specification

  /** Conservation: the final balance is the initial one minus the granted
      amounts, whatever the amounts and their order. */
  lemma {:induction false} RunIsInitialMinusGranted(saldo: int, amounts: seq<int>)
    ensures Run(saldo, amounts) == saldo - GrantedSum(amounts, Outcomes(saldo, amounts))
    decreases |amounts|
  {
    if |amounts| > 0 {
      var n := |amounts| - 1;
      RunIsInitialMinusGranted(saldo, amounts[..n]);
      var o := Outcomes(saldo, amounts);
      assert o[..n] == Outcomes(saldo, amounts[..n]);
      assert o[n] == (Run(saldo, amounts[..n]) >= amounts[n]);
    }
  }

  /** The floor: a balance that starts non-negative is non-negative after
      every prefix of attempts. This holds for any amounts, because an
      attempt only subtracts what the balance covers. */
  lemma {:induction false} BalanceNeverNegative(saldo: int, amounts: seq<int>)
    requires saldo >= 0
    ensures forall k :: 0 <= k <= |amounts| ==> Run(saldo, amounts[..k]) >= 0
    decreases |amounts|
  {
    if |amounts| > 0 {
      var n := |amounts| - 1;
      BalanceNeverNegative(saldo, amounts[..n]);
      forall k | 0 <= k <= |amounts|
        ensures Run(saldo, amounts[..k]) >= 0
      {
        if k <= n {
          assert amounts[..k] == amounts[..n][..k];
        } else {
          assert amounts[..k] == amounts;
          assert amounts[..n][..n] == amounts[..n];
        }
      }
    }
  }

  /** A granted attempt lowers the balance by exactly its amount; a refused
      one leaves it as it was. */
  lemma {:induction false} AttemptEffect(saldo: int, amounts: seq<int>, dinero: int)
    ensures Outcomes(saldo, amounts + [dinero])[|amounts|] <==> Run(saldo, amounts) >= dinero
    ensures Run(saldo, amounts + [dinero]) ==
      if Run(saldo, amounts) >= dinero then Run(saldo, amounts) - dinero else Run(saldo, amounts)
  {
  }

  lemma {:induction false} StepsSum(schedule: seq<Worker>)
    ensures Steps(schedule, Hilo1) + Steps(schedule, Hilo2) == |schedule|
    decreases |schedule|
  {
    if |schedule| > 0 {
      StepsSum(schedule[1..]);
    }
  }

  /** The demonstration's outcome does not depend on the interleaving:
      of the four 100-unit attempts on 200, exactly the first two (in lock
      order) are granted, and the balance ends at 0. */
  lemma DemoOutcome(schedule: seq<Worker>)
    requires DemoSchedule(schedule)
    ensures Outcomes(InitialBalance, ScheduledAmounts(schedule, DemoAmount, DemoAmount))
      == [true, true, false, false]
    ensures Run(InitialBalance, ScheduledAmounts(schedule, DemoAmount, DemoAmount)) == 0
  {
    StepsSum(schedule);
    var a := ScheduledAmounts(schedule, DemoAmount, DemoAmount);
    assert a == [100, 100, 100, 100];
    assert a[..3] == [100, 100, 100] && a[..2] == [100, 100] && a[..1] == [100];
    assert a[..3][..2] == a[..2] && a[..2][..1] == a[..1] && a[..1][..0] == [];
    assert Run(InitialBalance, a[..1]) == 100;
    assert Run(InitialBalance, a[..2]) == 0;
    assert Run(InitialBalance, a[..3]) == 0;
    assert Outcomes(InitialBalance, a[..2]) == [true, true];
    assert Outcomes(InitialBalance, a[..3]) == [true, true, false];
  }

  // ---------------------------------------------------------------------
  // The shared account

  class Account {
    var saldo: int

    constructor ()
      ensures saldo == InitialBalance
    {
      saldo := InitialBalance;
    }

    /** One `with lock:` block of `retirar`: check and subtract together. */
    method TryWithdraw(dinero: int) returns (granted: bool)
      modifies this
      ensures granted <==> old(saldo) >= dinero
      ensures saldo == if granted then old(saldo) - dinero else old(saldo)
    {
      if saldo >= dinero {
        saldo := saldo - dinero;
        granted := true;
      } else {
        granted := false;
      }
    }

    /** `retirar(dinero, nombre)` run alone: `for _ in range(2)` attempts. */
    method Retirar(dinero: int) returns (granted: seq<bool>)
      modifies this
      ensures |granted| == AttemptsPerCall
      ensures granted == Outcomes(old(saldo), [dinero, dinero])
      ensures saldo == Run(old(saldo), [dinero, dinero])
    {
      granted := [];
      ghost var attempts: seq<int> := [];
      for i := 0 to AttemptsPerCall
        invariant |attempts| == i && forall j :: 0 <= j < i ==> attempts[j] == dinero
        invariant granted == Outcomes(old(saldo), attempts)
        invariant saldo == Run(old(saldo), attempts)
      {
        AttemptEffect(old(saldo), attempts, dinero);
        var ok := TryWithdraw(dinero);
        granted := granted + [ok];
        attempts := attempts + [dinero];
      }
      assert attempts == [dinero, dinero];
    }

    /** The two threads, as the serial order in which their locked blocks
        ran: step i is an attempt by worker `schedule[i]`. */
    method RunSchedule(schedule: seq<Worker>, amount1: int, amount2: int) returns (granted: seq<bool>)
      modifies this
      ensures granted == Outcomes(old(saldo), ScheduledAmounts(schedule, amount1, amount2))
      ensures saldo == Run(old(saldo), ScheduledAmounts(schedule, amount1, amount2))
    {
      ghost var all := ScheduledAmounts(schedule, amount1, amount2);
      granted := [];
      for i := 0 to |schedule|
        invariant granted == Outcomes(old(saldo), all[..i])
        invariant saldo == Run(old(saldo), all[..i])
      {
        var dinero := if schedule[i] == Hilo1 then amount1 else amount2;
        assert all[..i + 1] == all[..i] + [dinero];
        AttemptEffect(old(saldo), all[..i], dinero);
        var ok := TryWithdraw(dinero);
        granted := granted + [ok];
      }
      assert all[..|schedule|] == all;
    }
  }

  /** The whole demonstration: a fresh account of 200 and two workers each
      withdrawing 100 twice, in any interleaving. Exactly two attempts
      succeed and the final balance printed is 0. */
  method Demo(schedule: seq<Worker>) returns (finalSaldo: int, granted: seq<bool>)
    requires DemoSchedule(schedule)
    ensures |granted| == |schedule| == 2 * AttemptsPerCall
    ensures CountGranted(granted) == 2
    ensures finalSaldo == 0
    ensures finalSaldo == InitialBalance - GrantedSum(ScheduledAmounts(schedule, DemoAmount, DemoAmount), granted)
  {
    var account := new Account();
    granted := account.RunSchedule(schedule, DemoAmount, DemoAmount);
    finalSaldo := account.saldo;
    DemoOutcome(schedule);
    RunIsInitialMinusGranted(InitialBalance, ScheduledAmounts(schedule, DemoAmount, DemoAmount));
    StepsSum(schedule);
    assert granted[..3] == [true, true, false] && granted[..2] == [true, true];
    assert granted[..1] == [true] && granted[..1][..0] == [];
    assert granted[..3][..2] == granted[..2] && granted[..2][..1] == granted[..1];
    assert CountGranted(granted[..1]) == 1;
    assert CountGranted(granted[..2]) == 2;
    assert CountGranted(granted[..3]) == 2;
  }
}
