/** The success callback shared by the batches of one forward: called once, after all of them succeeded. */
module ForwardCallback {
  import opened Wrappers

  // How many batches have not succeeded, which were answered and how, and how often the callback was called
  datatype State = State(left: nat, open: set<nat>, done: set<nat>, failed: set<nat>, calls: nat)

  function Upto(n: nat): set<nat> {
    if n == 0 then {} else Upto(n - 1) + {n - 1}
  }

  // With nothing to send the callback is called at once.
  function Start(n: nat): State {
    State(n, Upto(n), {}, {}, if n == 0 then 1 else 0)
  }

  datatype Event = Done(batch: nat) | Fail(batch: nat)

  predicate CanHappen(s: State, e: Event) {
    e.batch in s.open
  }

  function After(s: State, e: Event): State {
    match e
    case Done(k) =>
      var left := if s.left > 0 then s.left - 1 else 0;
      State(left, s.open - {k}, s.done + {k}, s.failed, if left == 0 then s.calls + 1 else s.calls)
    case Fail(k) => s.(open := s.open - {k}, failed := s.failed + {k})
  }

  function Run(n: nat, events: seq<Event>): Option<State> {
    if events == [] then Some(Start(n)) else
      var s :- Run(n, events[..|events| - 1]);
      var e := events[|events| - 1];
      if CanHappen(s, e) then Some(After(s, e)) else None
  }

  ghost predicate Inv(s: State, n: nat) {
    && s.open + s.done + s.failed == Upto(n)
    && s.open !! s.done && s.open !! s.failed && s.done !! s.failed
    && |s.done| + s.left == n
    && s.calls == if s.left == 0 then 1 else 0
  }

  lemma {:induction false} SizeUpto(n: nat)
    ensures |Upto(n)| == n && forall k: nat :: k in Upto(n) <==> k < n
  {
    if n > 0 {
      SizeUpto(n - 1);
    }
  }

  lemma SubsetSize(a: set<nat>, b: set<nat>)
    requires a <= b
    ensures |a| <= |b| && (|a| == |b| ==> a == b)
  {
    assert b == a + (b - a);
    assert |b| == |a| + |b - a|;
    if |a| == |b| {
      assert b - a == {};
    }
  }

  lemma DoneKeepsInv(s: State, k: nat, n: nat)
    requires Inv(s, n) && k in s.open
    ensures Inv(After(s, Done(k)), n)
  {
    hide Upto;
    SizeUpto(n);
    assert k !in s.done && s.done + {k} <= Upto(n);
    SubsetSize(s.done + {k}, Upto(n));
    assert s.open - {k} + (s.done + {k}) + s.failed == s.open + s.done + s.failed;
  }

  lemma FailKeepsInv(s: State, k: nat, n: nat)
    requires Inv(s, n) && k in s.open
    ensures Inv(After(s, Fail(k)), n)
  {
    hide Upto;
    assert s.open - {k} + s.done + (s.failed + {k}) == s.open + s.done + s.failed;
  }

  lemma StepKeepsInv(s: State, e: Event, n: nat)
    requires Inv(s, n) && CanHappen(s, e)
    ensures Inv(After(s, e), n)
  {
    hide Inv, After;
    match e {
      case Done(k) => DoneKeepsInv(s, k, n);
      case Fail(k) => FailKeepsInv(s, k, n);
    }
  }

  lemma {:induction false} RunKeepsInv(n: nat, events: seq<Event>)
    requires Run(n, events).Some?
    ensures Inv(Run(n, events).value, n)
  {
    if events == [] {
      SizeUpto(n);
    } else {
      RunKeepsInv(n, events[..|events| - 1]);
      StepKeepsInv(Run(n, events[..|events| - 1]).value, events[|events| - 1], n);
    }
  }

  // In every run of answers the callback was called once if all batches have succeeded, and not at all otherwise.
  lemma CalledOnceIffAllSucceed(n: nat, events: seq<Event>)
    requires Run(n, events).Some?
    ensures var s := Run(n, events).value;
            && s.calls == (if forall k: nat :: k < n ==> k in s.done then 1 else 0)
            && (s.failed != {} ==> s.calls == 0)
  {
    hide Run;
    RunKeepsInv(n, events);
    var s := Run(n, events).value;
    SizeUpto(n);
    SubsetSize(s.done, Upto(n));
    if s.failed != {} {
      var k :| k in s.failed;
      assert k in Upto(n) && k !in s.done;
    }
  }

  class SharedCallback {
    var requestsLeft: nat
    var calls: nat

    constructor (requestsLeft: nat)
      ensures this.requestsLeft == requestsLeft && calls == 0
    {
      this.requestsLeft, calls := requestsLeft, 0;
    }

    method BatchDone(ghost s: State, k: nat)
      requires s.left == requestsLeft > 0 && s.calls == calls
      modifies this
      ensures requestsLeft == After(s, Done(k)).left && calls == After(s, Done(k)).calls
    {
      requestsLeft := requestsLeft - 1;
      if requestsLeft == 0 {
        calls := calls + 1;
      }
    }
  }
}
