/**
A lost acknowledgement and a killed orchestrator make no difference to where a
publication or a fallback ends.
*/
module OrchestrationFacts {
  import opened Common
  import opened Publication
  import opened PublicationFacts
  import opened Orchestration

  /** Reading the outcome back from the ledger gives what the lost answer said. */
  lemma {:induction false} LostAnswerIsRecovered(s: Store, attempt: string, payload: Payload)
    requires Chains(s) && Ledger(s)
    ensures AttemptAndReconcile(s, attempt, payload, true) == AttemptAndReconcile(s, attempt, payload, false)
  {
    if Act(s, attempt, payload).Ok? && attempt !in s.attempts {
      var m := Act(s, attempt, payload).value;
      ActMoves(s, attempt, payload);
      MoveKeepsChains(s, attempt, payload, m.receipt, m.store);
      MoveKeepsLedger(s, attempt, payload, m.receipt, m.store);
      ReconcileIsSound(m.store, attempt);
    }
  }

  /**
  In every system whose store a run has produced: with the acknowledgement lost,
  publication and fallback end in the same system with the same result as without.
  */
  lemma {:induction false} LostAcknowledgementIsHarmless(ops: seq<Op>, runs: map<string, Orchestration.Run>, q: Request,
                                                         read: Reader, lease: Lease)
    ensures var sys := System(PublicationFacts.Run(EMPTY, ops), runs);
      && PublishAndVerify(sys, q, read, true, lease) == PublishAndVerify(sys, q, read, false, lease)
      && FallbackAndVerify(sys, q, true, lease) == FallbackAndVerify(sys, q, false, lease)
  {
    PointerIsFoldOfLog(ops);
    var s := PublicationFacts.Run(EMPTY, ops);
    LostAnswerIsRecovered(s, q.attempt, PublishPayload(q));
    LostAnswerIsRecovered(s, q.attempt, FallbackPayload(q));
  }

  /** Preparing again, after any part of it or of what follows, changes nothing more. */
  lemma {:induction false} PrepareAgain(sys: System, q: Request, steps: nat)
    ensures Prepare(Prepare(sys, q, steps), q, 3) == Prepare(sys, q, 3)
  {
  }

  predicate Prepared(sys: System, q: Request)
  {
    q.run in sys.runs && !sys.runs[q.run].state.PLANNED? && !sys.runs[q.run].state.ELIGIBLE?
  }

  lemma {:induction false} PreparedStays(sys: System, q: Request)
    requires Prepared(sys, q)
    ensures Prepare(sys, q, 3) == sys
  {
  }

  /** A stored attempt answers a repeated one. */
  lemma {:induction false} AttemptAgain(s: Store, attempt: string, payload: Payload, lose: bool, s': Store)
    requires AttemptAndReconcile(s, attempt, payload, lose).1.Good?
    requires Chains(s) && Ledger(s)
    requires s'.attempts == AttemptAndReconcile(s, attempt, payload, lose).0.attempts
    ensures AttemptAndReconcile(s', attempt, payload, lose) == (s', AttemptAndReconcile(s, attempt, payload, lose).1)
  {
    LostAnswerIsRecovered(s, attempt, payload);
    if attempt !in s.attempts { ActMoves(s, attempt, payload); }
  }

  /** The pin just stored is found again. */
  lemma {:induction false} PinAgain(s: Store, product: string, pin: string, read: Reader)
    ensures var (s', answer) := Resolve(s, product, pin, read); Resolve(s', product, pin, read) == (s', answer)
  {
  }

  /** The run is past publishing. */
  predicate Published(sys: System, q: Request)
  {
    Prepared(sys, q) && !sys.runs[q.run].state.PUBLISHING?
  }

  lemma {:induction false} CloseAgain(sys: System, q: Request, receipt: Receipt, read: Reader, lease: Lease)
    requires Published(sys, q)
    ensures var sys' := Close(sys, q, receipt, read, lease).0;
      && Published(sys', q)
      && sys'.store.attempts == sys.store.attempts
      && Close(sys', q, receipt, read, Unlimited) == Close(sys, q, receipt, read, Unlimited)
  {
    hide VerifyPin;
    PinAgain(sys.store, q.product, q.pin, read);
  }

  /** The verifying half, cut short and done again. */
  lemma {:induction false} VerifyAgain(sys: System, q: Request, receipt: Receipt, read: Reader, lease: Lease)
    requires Prepared(sys, q)
    ensures var sys' := Verify(sys, q, receipt, read, lease).0;
      && Prepared(sys', q)
      && sys'.store.attempts == sys.store.attempts
      && Verify(sys', q, receipt, read, Unlimited) == Verify(sys, q, receipt, read, Unlimited)
  {
    if !lease.Spent() {
      var runs := Advance(sys.runs, q.run, PUBLISHING, VERIFYING, Some(q.attempt), Receipted(receipt));
      CloseAgain(sys.(runs := runs), q, receipt, read, lease.Next());
      var sys' := Verify(sys, q, receipt, read, lease).0;
      assert Advance(sys'.runs, q.run, PUBLISHING, VERIFYING, Some(q.attempt), Receipted(receipt)) == sys'.runs;
      assert sys'.(runs := sys'.runs) == sys';
    }
  }

  /**
  Restart: whatever durable writes a killed call of `publish_and_verify` made, a
  complete call afterwards ends in the system and with the result of an
  uninterrupted one.
  */
  lemma {:induction false} RestartConverges(sys: System, q: Request, read: Reader, lose: bool, lease: Lease)
    requires Chains(sys.store) && Ledger(sys.store)
    ensures PublishAndVerify(PublishAndVerify(sys, q, read, lose, lease).0, q, read, lose, Unlimited)
         == PublishAndVerify(sys, q, read, lose, Unlimited)
  {
    if lease.Writes? && lease.n <= 3 {
      PrepareAgain(sys, q, lease.n);
    } else {
      var s3 := Prepare(sys, q, 3);
      assert Prepared(s3, q);
      var (store, answer) := AttemptAndReconcile(s3.store, q.attempt, PublishPayload(q), lose);
      var s4 := s3.(store := store);
      PreparedStays(s4, q);
      if answer.Good? {
        var rest := lease.Next().Next().Next().Next();
        VerifyAgain(s4, q, answer.value, read, rest);
        var s' := Verify(s4, q, answer.value, read, rest).0;
        PreparedStays(s', q);
        AttemptAgain(s3.store, q.attempt, PublishPayload(q), lose, s'.store);
      } else {
        AttemptFails(s3.store, q.attempt, PublishPayload(q), lose);
      }
    }
  }

  /** A refused attempt leaves the store alone. */
  lemma {:induction false} AttemptFails(s: Store, attempt: string, payload: Payload, lose: bool)
    requires Chains(s) && Ledger(s)
    requires AttemptAndReconcile(s, attempt, payload, lose).1.Bad?
    ensures AttemptAndReconcile(s, attempt, payload, lose).0 == s
  {
    LostAnswerIsRecovered(s, attempt, payload);
  }

  /** A call, killed or not, keeps the log sound. */
  lemma {:induction false} AttemptKeepsLog(s: Store, attempt: string, payload: Payload, lose: bool)
    requires Chains(s) && Ledger(s)
    ensures var s' := AttemptAndReconcile(s, attempt, payload, lose).0; Chains(s') && Ledger(s')
  {
    hide Chains, Ledger, Act, Move;
    if Act(s, attempt, payload).Ok? {
      var m := Act(s, attempt, payload).value;
      if attempt in s.attempts {
        assert m.store == s by { StoredAttempt(s, attempt, payload); }
      } else {
        ActMoves(s, attempt, payload);
        MoveKeepsChains(s, attempt, payload, m.receipt, m.store);
        MoveKeepsLedger(s, attempt, payload, m.receipt, m.store);
      }
    }
  }

  lemma StoredAttempt(s: Store, attempt: string, payload: Payload)
    requires attempt in s.attempts && Act(s, attempt, payload).Ok?
    ensures Act(s, attempt, payload).value.store == s
  {
  }

  lemma {:induction false} PinsOnly(s: Store, s': Store)
    requires Chains(s) && Ledger(s) && s' == s.(pins := s'.pins)
    ensures Chains(s') && Ledger(s')
  {
    forall product ensures Folded(s', product) { assert Folded(s, product); }
  }

  lemma ResolveAddsPin(s: Store, product: string, pin: string, read: Reader)
    ensures var s' := Resolve(s, product, pin, read).0; s' == s.(pins := s'.pins)
  {
  }

  lemma {:induction false} PublishKeepsLog(sys: System, q: Request, read: Reader, lose: bool, lease: Lease)
    requires Chains(sys.store) && Ledger(sys.store)
    ensures var s' := PublishAndVerify(sys, q, read, lose, lease).0.store; Chains(s') && Ledger(s')
  {
    hide Chains, Ledger, AttemptAndReconcile, Resolve;
    AttemptKeepsLog(sys.store, q.attempt, PublishPayload(q), lose);
    var store := AttemptAndReconcile(sys.store, q.attempt, PublishPayload(q), lose).0;
    ResolveAddsPin(store, q.product, q.pin, read);
    PinsOnly(store, Resolve(store, q.product, q.pin, read).0);
  }

  lemma {:induction false} FallbackKeepsLog(sys: System, q: Request, lose: bool, lease: Lease)
    requires Chains(sys.store) && Ledger(sys.store)
    ensures var s' := FallbackAndVerify(sys, q, lose, lease).0.store; Chains(s') && Ledger(s')
  {
    hide Chains, Ledger, AttemptAndReconcile, Resolve;
    AttemptKeepsLog(sys.store, q.attempt, FallbackPayload(q), lose);
    var store := AttemptAndReconcile(sys.store, q.attempt, FallbackPayload(q), lose).0;
    ResolveAddsPin(store, q.product, q.attempt + ":source-pin", NoReader());
    PinsOnly(store, Resolve(store, q.product, q.attempt + ":source-pin", NoReader()).0);
  }

  /** A call that may be killed, and whose publication's answer may be lost. */
  datatype Kill = Kill(lease: Lease, lose: bool)

  function PublishKilled(sys: System, q: Request, read: Reader, kills: seq<Kill>): System
    decreases |kills|
  {
    if kills == [] then sys
    else PublishKilled(PublishAndVerify(sys, q, read, kills[0].lose, kills[0].lease).0, q, read, kills[1..])
  }

  lemma {:induction false} LostOrNot(sys: System, q: Request, read: Reader, lose: bool, lease: Lease)
    requires Chains(sys.store) && Ledger(sys.store)
    ensures PublishAndVerify(sys, q, read, lose, lease) == PublishAndVerify(sys, q, read, false, lease)
    ensures FallbackAndVerify(sys, q, lose, lease) == FallbackAndVerify(sys, q, false, lease)
  {
    hide Chains, Ledger, AttemptAndReconcile, Verify, VerifySource;
    LostAnswerIsRecovered(sys.store, q.attempt, PublishPayload(q));
    LostAnswerIsRecovered(sys.store, q.attempt, FallbackPayload(q));
  }

  /**
  Publication converges: after any number of calls, each killed after any of its durable
  writes and with or without losing the store's answer, a complete call ends in the
  system and with the result of one uninterrupted call.
  */
  lemma {:induction false} PublicationConverges(sys: System, q: Request, read: Reader, kills: seq<Kill>, lose: bool)
    requires Chains(sys.store) && Ledger(sys.store)
    ensures PublishAndVerify(PublishKilled(sys, q, read, kills), q, read, lose, Unlimited)
         == PublishAndVerify(sys, q, read, false, Unlimited)
    decreases |kills|
  {
    hide Chains, Ledger, PublishAndVerify;
    if kills == [] {
      LostOrNot(sys, q, read, lose, Unlimited);
    } else {
      var k := kills[0];
      LostOrNot(sys, q, read, k.lose, k.lease);
      RestartConverges(sys, q, read, false, k.lease);
      PublishKeepsLog(sys, q, read, k.lose, k.lease);
      PublicationConverges(PublishAndVerify(sys, q, read, k.lose, k.lease).0, q, read, kills[1..], lose);
    }
  }

  /** Recovery is under way or over. */
  predicate Recovering(sys: System, q: Request)
  {
    q.run in sys.runs && !sys.runs[q.run].state.ACTIVE? && !sys.runs[q.run].state.INCIDENT?
  }

  lemma {:induction false} RecoverAgain(sys: System, q: Request, steps: nat)
    requires q.run in sys.runs
    ensures Recover(Recover(sys, q, steps), q, 2) == Recover(sys, q, 2) && Recovering(Recover(sys, q, 2), q)
  {
  }

  lemma {:induction false} RecoveringStays(sys: System, q: Request)
    requires Recovering(sys, q)
    ensures Recover(sys, q, 2) == sys
  {
  }

  lemma {:induction false} VerifySourceAgain(sys: System, q: Request, receipt: Receipt, lease: Lease)
    requires Recovering(sys, q)
    ensures var sys' := VerifySource(sys, q, receipt, lease).0;
      && Recovering(sys', q) && sys'.store.attempts == sys.store.attempts
      && VerifySource(sys', q, receipt, Unlimited) == VerifySource(sys, q, receipt, Unlimited)
  {
    hide VerifyPin;
    var pin := q.attempt + ":source-pin";
    PinAgain(sys.store, q.product, pin, NoReader());
    ResolveAddsPin(sys.store, q.product, pin, NoReader());
  }

  /** One killed fallback, followed by a complete one. */
  lemma {:induction false} FallbackRestarts(sys: System, q: Request, lease: Lease)
    requires Chains(sys.store) && Ledger(sys.store)
    ensures FallbackAndVerify(FallbackAndVerify(sys, q, false, lease).0, q, false, Unlimited)
         == FallbackAndVerify(sys, q, false, Unlimited)
  {
    hide Chains, Ledger, AttemptAndReconcile, VerifySource, Recover, Recovering;
    if q.run in sys.runs {
      if lease.Writes? && lease.n <= 2 {
        RecoverAgain(sys, q, lease.n);
      } else {
        RecoverAgain(sys, q, 2);
        var s2 := Recover(sys, q, 2);
        var (store, answer) := AttemptAndReconcile(s2.store, q.attempt, FallbackPayload(q), false);
        var s3 := s2.(store := store);
        StillRecovering(s2, s3, q);
        RecoveringStays(s3, q);
        if answer.Good? {
          var rest := lease.Next().Next().Next();
          VerifySourceAgain(s3, q, answer.value, rest);
          var s' := VerifySource(s3, q, answer.value, rest).0;
          RecoveringStays(s', q);
          AttemptAgain(s2.store, q.attempt, FallbackPayload(q), false, s'.store);
        } else {
          AttemptFails(s2.store, q.attempt, FallbackPayload(q), false);
        }
      }
    }
  }

  lemma StillRecovering(sys: System, sys': System, q: Request)
    requires Recovering(sys, q) && sys'.runs == sys.runs
    ensures Recovering(sys', q) && q.run in sys'.runs
  {
  }

  function FallbackKilled(sys: System, q: Request, kills: seq<Kill>): System
    decreases |kills|
  {
    if kills == [] then sys
    else FallbackKilled(FallbackAndVerify(sys, q, kills[0].lose, kills[0].lease).0, q, kills[1..])
  }

  /** Fallback converges in the same way. */
  lemma {:induction false} FallbackConverges(sys: System, q: Request, kills: seq<Kill>, lose: bool)
    requires Chains(sys.store) && Ledger(sys.store)
    ensures FallbackAndVerify(FallbackKilled(sys, q, kills), q, lose, Unlimited)
         == FallbackAndVerify(sys, q, false, Unlimited)
    decreases |kills|
  {
    hide Chains, Ledger, FallbackAndVerify;
    if kills == [] {
      LostOrNot(sys, q, NoReader(), lose, Unlimited);
    } else {
      var k := kills[0];
      LostOrNot(sys, q, NoReader(), k.lose, k.lease);
      FallbackRestarts(sys, q, k.lease);
      FallbackKeepsLog(sys, q, k.lose, k.lease);
      FallbackConverges(FallbackAndVerify(sys, q, k.lose, k.lease).0, q, kills[1..], lose);
    }
  }
}
