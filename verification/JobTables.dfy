/**
 * The contracts and final_contracts tables and the /job handlers over them
 * (internal/db/audit.go, internal/db/final_contracts.go,
 * internal/httpapi/job_approval.go, internal/httpapi/job_tee.go). Each UPDATE
 * or INSERT is one assignment; Finalization interleaves them.
 */
module JobTables {
  import opened Wrappers
  import opened Contracts
  import opened Signing
  import opened Verification
  import JobApproval
  import opened Finalization

  datatype StatusReply = NotFound | NoApprovalNeeded | NotApproved | Unstored | Approved(final: bool)

  datatype TeeReply = TeeNotFound | GateShut | NotFinal | Enabled(at: Time)

  class Tables {
    const authority: Authority
    var rows: map<string, Row>
    var finals: map<string, FinalContract>

    /** The tables with no status call under way. */
    ghost function AsStore(): Store
      reads this
    {
      Store(authority, rows, finals, map[])
    }

    constructor (authority: Authority)
      ensures this.authority == authority && rows == map[] && finals == map[]
    {
      this.authority, rows, finals := authority, map[], map[];
    }

    /** Returns true only for the first caller; a later one leaves the stored contract untouched. */
    method CreateFinalContract(jobId: string, c: Contract) returns (created: bool)
      modifies this`finals
      ensures finals == CreateFinal(old(finals), jobId, c)
      ensures created <==> jobId !in old(finals)
    {
      created := jobId !in finals;
      if created {
        finals := finals[jobId := FinalContract(c.contractId, c.contractHash, c)];
      }
    }

    method MarkJobFinal(jobId: string, now: Time) returns (first: bool)
      modifies this`rows
      ensures rows == MarkRowsFinal(old(rows), jobId, now)
      ensures forall k <- rows :: rows[k].jobId == jobId ==> rows[k].finalizedAt.Some?
      ensures !first ==> rows == old(rows)
      ensures first <==> exists k <- old(rows) :: old(rows)[k].jobId == jobId && old(rows)[k].finalizedAt.None?
    {
      first := exists k <- rows :: rows[k].jobId == jobId && rows[k].finalizedAt.None?;
      rows := map k <- rows :: if rows[k].jobId == jobId && rows[k].finalizedAt.None?
                               then rows[k].(finalizedAt := Some(now)) else rows[k];
    }

    /** StoreGeneratedContract: regenerating a selection resets its row's lifecycle columns. */
    method StoreGeneratedContract(session: string, jobId: string, c: Contract)
      modifies this`rows
      ensures rows == old(rows)[session := Row(jobId, c, None, None)]
      ensures AsStore() == Exec(old(AsStore()), Regenerate(session, jobId, c))
    {
      rows := rows[session := Row(jobId, c, None, None)];
    }

    method UpdateContractByContractId(contractId: string, c: Contract) returns (found: bool)
      modifies this`rows
      ensures rows == UpdateContract(old(rows), contractId, c)
      ensures AsStore() == Exec(old(AsStore()), StoreContract(contractId, c))
      ensures found <==> exists k <- old(rows) :: old(rows)[k].contract.contractId == contractId
    {
      found := exists k <- rows :: rows[k].contract.contractId == contractId;
      rows := map k <- rows :: if rows[k].contract.contractId == contractId then rows[k].(contract := c) else rows[k];
    }

    /** sealContract: stores the hash of a contract that has none. */
    method SealContract(c: Contract) returns (sealed: Contract, ok: bool)
      modifies this`rows
      ensures ok ==> sealed == Seal(c)
      ensures rows == if c.contractHash == NoHash then UpdateContract(old(rows), c.contractId, Seal(c)) else old(rows)
      ensures !ok ==> rows == old(rows)
      ensures ok <==>
        c.contractHash != NoHash || exists k <- old(rows) :: old(rows)[k].contract.contractId == c.contractId
    {
      sealed, ok := c, true;
      if c.contractHash == NoHash {
        sealed := c.(contractHash := HashContract(c));
        ok := UpdateContractByContractId(c.contractId, sealed);
      }
    }

    /** finalizeJob: final exactly when every signature verifies, and then stored and stamped. */
    method FinalizeJob(jobId: string, c: Contract, now: Time) returns (final: bool)
      modifies this`rows, this`finals
      ensures final == ContractVerified(authority, c)
      ensures finals == if final then CreateFinal(old(finals), jobId, c) else old(finals)
      ensures rows == if final then MarkRowsFinal(old(rows), jobId, now) else old(rows)
    {
      final := ContractVerified(authority, c);
      if final {
        var _ := CreateFinalContract(jobId, c);
        var _ := MarkJobFinal(jobId, now);
      }
    }

    /**
     * GET /job/{id}/status run without interruption. It approves exactly an accepted job whose
     * providers all signed one hash its content stands for; with its job id in the JSON such a job
     * comes out final, and the final contract stored is the sealed one, stamped with the job id.
     */
    method GetJobStatus(session: string, accepted: bool, policies: map<string, string>, now: Time)
      returns (reply: StatusReply)
      modifies this`rows, this`finals
      ensures reply == NotFound <==> session !in old(rows)
      ensures reply == NoApprovalNeeded <==> session in old(rows) && !UnderJobApproval(old(rows)[session].contract)
      ensures reply.Approved? <==>
        && session in old(rows) && UnderJobApproval(old(rows)[session].contract) && accepted
        && exists h :: SignedAsJob(authority, old(rows)[session].contract, policies, h)
      ensures reply.Approved? ==>
        var row := old(rows)[session];
        var c := row.contract.(jobId := row.jobId);
        var sealed := if c.contractHash == NoHash then c.(contractHash := HashContract(c)) else c;
        && (reply.final <==> EverySignatureVerifies(authority, sealed))
        && (row.contract.jobId == row.jobId ==> reply.final)
        && finals == (if reply.final && row.jobId !in old(finals)
                      then old(finals)[row.jobId := FinalContract(c.contractId, sealed.contractHash, sealed)]
                      else old(finals))
        && session in rows
        && rows[session] ==
             row.(contract := if row.contract.contractHash == NoHash then sealed else row.contract,
                  finalizedAt := if reply.final then Some(row.finalizedAt.GetOr(now)) else row.finalizedAt)
      ensures !reply.Approved? ==> rows == old(rows) && finals == old(finals)
      ensures reply.Approved? ==> (rows, finals) == Finalized(old(AsStore()), session, now)
    {
      hide ContractVerified, JobVerified, JobApproval.InfraOwners, NeedsJobApproval, UnderJobApproval;
      hide EverySignatureVerifies, SignedAsJob, HashContract;
      if session !in rows {
        return NotFound;
      }
      var row := rows[session];
      NeedsJobApprovalExactly(row.contract);
      if !NeedsJobApproval(row.contract) {
        return NoApprovalNeeded;
      }
      if !accepted {
        return NotApproved;
      }
      var owners := BuildOwnerMap(JobApproval.InfraOwners(row.contract.infraProviders, policies));
      VerifiedUnderPolicies(authority, row.contract, policies);
      if !JobVerified(authority, row.contract, owners) {
        return NotApproved;
      }
      var c := Stamped(row.contract, row.jobId);
      assert rows[session].contract.contractId == c.contractId;
      var sealed, ok := SealContract(c);
      if !ok {
        return Unstored;
      }
      SealedVerifies(authority, row.contract, owners, row.jobId);
      var final := FinalizeJob(row.jobId, sealed, now);
      reply := Approved(final);
    }

    /** POST /job/{id}/tee: only a fully signed, final job is enabled, and the first stamp is kept. */
    method EnableJobTee(session: string, now: Time) returns (reply: TeeReply)
      modifies this`rows
      ensures reply.Enabled? <==>
        && session in old(rows)
        && MayRun(authority, old(rows)[session].contract, now)
        && old(rows)[session].finalizedAt.Some?
      ensures reply.Enabled? ==>
        && rows == EnableRowsTee(old(rows), old(rows)[session].jobId, now)
        && rows == Exec(old(AsStore()), EnableTee(old(rows)[session].jobId, now)).rows
        && reply.at == old(rows)[session].teeEnabledAt.GetOr(now)
      ensures !reply.Enabled? ==> rows == old(rows)
    {
      hide Gate, MayRun;
      if session !in rows {
        return TeeNotFound;
      }
      var row := rows[session];
      GateExactly(authority, row.contract, now);
      if Gate(authority, row.contract, now) != Passed {
        return GateShut;
      }
      if row.finalizedAt.None? {
        return NotFinal;
      }
      rows := EnableRowsTee(rows, row.jobId, now);
      reply := Enabled(row.teeEnabledAt.GetOr(now));
    }
  }
}
