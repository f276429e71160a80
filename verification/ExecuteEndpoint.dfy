/** The last part of the `/execute` handler: admission, attestation, context, hand-off. */
module ExecuteEndpoint {
  import opened Prelude
  import opened ExecutionRecords
  import opened ExecutionManagement
  import opened Lifecycle

  /** An attestation document, an error value, or an exception. */
  datatype Attestation = Document | AttestationError | Throws

  datatype Response = AtCapacity | AttestationFailed | InternalError | Accepted(id: Id)

  /** The schedule of one handler. */
  function HandlerSteps(id: Id, attested: bool, handOffOk: bool): seq<Step> {
    [Create(id), Attest(id, attested), StoreContext(id), HandOff(id, handOffOk)]
  }

  /** The four handler steps of the step system, one after the other. */
  function HandlerRun(c: Config, s: State, id: Id, attested: bool, handOffOk: bool): State {
    ApplyHandOff(ApplyStore(ApplyAttest(ApplyCreate(c, s, id), id, attested), id), id, handOffOk)
  }

  lemma {:induction false} HandlerRunIsRun(c: Config, s: State, id: Id, attested: bool, handOffOk: bool)
    ensures HandlerRun(c, s, id, attested, handOffOk) == RunAll(c, s, HandlerSteps(id, attested, handOffOk))
  {
    var a, b, d, e := Create(id), Attest(id, attested), StoreContext(id), HandOff(id, handOffOk);
    assert [a, b, d, e][1..] == [b, d, e] && [b, d, e][1..] == [d, e] && [d, e][1..] == [e] && [e][1..] == [];
    var s1 := Apply(c, s, a);
    var s2 := Apply(c, s1, b);
    var s3 := Apply(c, s2, d);
    assert RunAll(c, s3, [e]) == Apply(c, s3, e);
    assert RunAll(c, s2, [d, e]) == RunAll(c, s3, [e]);
    assert RunAll(c, s1, [b, d, e]) == RunAll(c, s2, [d, e]);
  }

  /** What a run of the handler steps does, case by case. */
  lemma HandlerCases(c: Config, s: State, id: Id, attested: bool, handOffOk: bool)
    requires id !in s.phases
    ensures var t := HandlerRun(c, s, id, attested, handOffOk);
            if |ActiveIds(s.mgr.recs)| >= c.maxConcurrent then t == s
            else
              && t.mgr == ExecutionRecords.Create(s.mgr, id)
              && t.contexts == (if attested then s.contexts + {id} else s.contexts)
              && At(t, id, if attested && handOffOk then Spawned else GaveUp)
  {
  }

  /**
   * The execution is handed to a worker exactly if it was admitted, attested and its thread
   * started; the clone is removed exactly if it was not. The shared tables end as the handler
   * steps of the step system leave them.
   */
  method Execute(manager: ExecutionManager, encryption: EncryptionContexts, id: Id, key: Key, attestation: Attestation,
                 handOffOk: bool, replyOk: bool, ghost c: Config, ghost s: State, maxConcurrent: nat)
    returns (response: Response, handedOff: bool, cloneRemoved: bool)
    requires manager.Valid() && manager.View() == s.mgr && encryption.contexts.Keys == s.contexts
    requires c.maxConcurrent == maxConcurrent && id !in s.phases
    modifies manager, encryption
    ensures var t := RunAll(c, s, HandlerSteps(id, attestation.Document?, handOffOk));
            && manager.View() == t.mgr && encryption.contexts.Keys == t.contexts
            && (handedOff <==> At(t, id, Spawned))
    ensures encryption.contexts
            == if |ActiveIds(s.mgr.recs)| < maxConcurrent && attestation == Document
               then old(encryption.contexts)[id := key] else old(encryption.contexts)
    ensures cloneRemoved == !handedOff
    ensures response == AtCapacity <==> |ActiveIds(s.mgr.recs)| >= maxConcurrent
    ensures response == AttestationFailed <==> response != AtCapacity && attestation == AttestationError
    ensures response == Accepted(id) <==> handedOff && replyOk
    ensures response == AtCapacity || response == AttestationFailed || response == Accepted(id)
            || response == InternalError
    ensures handedOff <==> |ActiveIds(s.mgr.recs)| < maxConcurrent && attestation == Document && handOffOk
  {
    hide HandlerRun, HandlerSteps, RunAll;
    HandlerCases(c, s, id, attestation.Document?, handOffOk);
    HandlerRunIsRun(c, s, id, attestation.Document?, handOffOk);
    handedOff := false;
    var record, accepted := manager.TryCreateExecution(id, maxConcurrent);
    if !accepted {
      response := AtCapacity;
    } else {
      match attestation {
        case Throws =>
          response := InternalError;
        case AttestationError =>
          response := AttestationFailed;
        case Document =>
          encryption.StoreEncryptionContext(id, key);
          handedOff := handOffOk;
          response := if handOffOk && replyOk then Accepted(id) else InternalError;
      }
    }
    // finally
    cloneRemoved := !handedOff;
  }
}
