/**
  The batch sandbox (src/coursefuzz/adapters/sandbox.py) as the engine sees it: every program either
  answers all of its tests or, on a timeout or runner error, answers none of them.
*/
module Sandbox {
  import opened RestrictedLanguage
  import opened Oracle

  datatype SuiteExecution = SuiteExecution(
    programId: string, lost: bool, passed: nat, failed: nat, outputs: seq<CaseOutput>)

  predicate AllPassed(e: SuiteExecution) {
    !e.lost && e.failed == 0
  }

  ghost predicate IsExecution(p: ProgramVariant, tests: seq<TestCase>, lost: bool, e: SuiteExecution) {
    && e.programId == p.id && e.lost == lost
    && if lost then e.passed == 0 && e.failed == |tests| && e.outputs == []
       else IsReport(p.code, tests, SuiteReport(e.passed, e.failed, e.outputs))
  }

  ghost predicate AreExecutions(ps: seq<ProgramVariant>, tests: seq<TestCase>, lost: nat -> bool, from: nat,
      es: seq<SuiteExecution>)
  {
    |es| == |ps| && forall i :: 0 <= i < |ps| ==> IsExecution(ps[i], tests, lost(from + i), es[i])
  }

  /** Which executions are lost and which batches start too late is the environment's choice. */
  class BatchSandbox {
    const lost: nat -> bool
    const late: nat -> bool
    var executed: nat
    var batches: nat

    constructor (lost: nat -> bool, late: nat -> bool)
      ensures this.lost == lost && this.late == late && executed == 0 && batches == 0
    {
      this.lost, this.late, executed, batches := lost, late, 0, 0;
    }

    method RunSuite(p: ProgramVariant, tests: seq<TestCase>) returns (e: SuiteExecution)
      modifies this`executed
      ensures executed == old(executed) + 1
      ensures IsExecution(p, tests, lost(old(executed)), e)
      ensures AllPassed(e) <==> !lost(old(executed)) && forall t | t in tests :: Passes(p.code, t)
    {
      if lost(executed) {
        e := SuiteExecution(p.id, true, 0, |tests|, []);
      } else {
        var r := Run(p.code, tests);
        e := SuiteExecution(p.id, false, r.passed, r.failed, r.outputs);
      }
      executed := executed + 1;
    }

    method RunSuiteBatch(ps: seq<ProgramVariant>, tests: seq<TestCase>) returns (es: seq<SuiteExecution>)
      modifies this`executed
      ensures executed == old(executed) + |ps|
      ensures AreExecutions(ps, tests, lost, old(executed), es)
      ensures forall i :: 0 <= i < |ps| ==>
                (AllPassed(es[i]) <==> !lost(old(executed) + i) && forall t | t in tests :: Passes(ps[i].code, t))
    {
      es := [];
      for i := 0 to |ps|
        invariant executed == old(executed) + i
        invariant AreExecutions(ps[..i], tests, lost, old(executed), es)
        invariant forall j :: 0 <= j < i ==>
                    (AllPassed(es[j]) <==> !lost(old(executed) + j) && forall t | t in tests :: Passes(ps[j].code, t))
      {
        var e := RunSuite(ps[i], tests);
        es := es + [e];
      }
      assert ps[..|ps|] == ps;
    }
  }
}
