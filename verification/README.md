# Governance layer: a model of its protocols

This project models the governance layer's multi-party contract service and proves what its
protocols promise over whole runs. `dafny verify dfyconfig.toml` checks everything.

These parts are modelled.

* **Signing, consent and amendment.** A generated contract is hashed with its signature blocks
  blanked, signed by the governance layer, and signed per data provider. Providers may withdraw
  consent or set a consent expiry (which re-hashes the contract and clears signatures), the
  consumer may edit it under an amendment signature, and the run gate re-verifies it all.
  `Contracts`, `ContractGen` (what starts a run), `Signing` (what each request does),
  `SigningServer` (the handlers as they run); `Verification`, `SigningSteps` and `EditSteps` (what
  every verdict and every request means, down to keys, hashes and fields), `SigningRuns`, `Validity`
  and `Payload` (theorems over runs).
* **Job approval and finalization.** An append-only audit log folded to the latest entry per key,
  then verification, sealing and the insert-once final contract. `JobApproval`, `JobServer`;
  `ApprovalSteps` (one call), `ApprovalRuns`, `ApprovalOrder`, `Coverage` and `ApprovalHistory` (runs
  of them), `Finalization`, `JobTables`.
* **FL participation negotiation.** Asks, answers, the decline count, removal and its fan-out.
  `Negotiation`, `NegotiationServer`; `NegotiationSteps` (one answer, posting or removal),
  `NegotiationRuns`, `NegotiationAnswers`.
* **TEE run outcomes.** Watchers and pollers under one mutex, with the coordinator job of an event
  kept only in the event's text. `TeeOutcome`, `TeeServer`, `TeeRuns`.
* **Counterexamples.** `Examples` holds concrete contracts on which a promise fails.
* **Two algorithms.** Checkpoint file names and the two scans that read them (`ModelFiles`), and
  the order-preserving grouping of jobs and requests (`Grouping`).

How it is modelled:

* Cryptography is symbolic. A hash is the blanked contract itself, so hashing is injective; a
  signature value is the pair of a key and a hash. No axioms are used.
* Times are integers, 0 standing for Go's zero time. The catalogue, the APD policies, the
  coordinator, the clock and tokens are parameters.
* Code that changes state is a class or a method with the source's loops; each is proved to do
  what a specification function says, and the theorems are about those functions over sequences of
  requests of any length. Handlers are atomic, except where the rows below say statement by
  statement (`Finalization.Exec`, `TeeRuns.Apply`).
* A stored row's order is the order of its insertion, and an id is a position.

What the proofs turned up about the code:

* With no consent expiry set, the run gate never looks at the contract's own `valid_until`
  (`Validity.ExpiryLoopIsValidUntil` gives the exact condition, `Examples.GateAfterEndExample` a
  contract).
* A `participation_update` may be posted by a client with no final warning, and declining it can
  remove a provider. `NegotiationRuns.UnwarnedRemovalExactly` says exactly when, and
  `NegotiationRuns.UnwarnedRemovalExample` gives a run; where clients post requests only, nobody is
  removed unwarned (`NegotiationRuns.NobodyRemovedUnwarned`).
* Signing or withdrawing consent answers whatever notification the caller names, if it is addressed
  to their provider id, and a re-hash answers whatever is also of type `CONTRACT_SIGN`: superseded or
  declined participation asks are rewritten too (`NegotiationAnswers.SigningRewrites`,
  `NegotiationAnswers.RehashRewrites`). The warnings are safe all the same. When a superseded ask is
  frozen, a removed provider's answers final and removal exactly two declines is stated with both
  directions (`NegotiationAnswers.SupersededIsFrozen`, `NegotiationAnswers.RemovedAnswersAreFinal`,
  `NegotiationAnswers.RemovedIffTwoDeclines`).
* A coordinator's failure reason that quotes another run's marker hides that run: it is never
  resumed and its own outcome never recorded (`TeeRuns.QuotedRunIsHidden`).
* A job contract whose JSON does not carry its `job_id` can pass verification and yet never become
  final, since stamping the id changes what was signed: exactly then, as long as the contents
  behind its stored hash and amendment carry the id the JSON carries
  (`Finalization.FinalIffJobIdInJson`, `Examples.ColumnOnlyExample`).
* When two datasets share an audit key and the caller owns only the first listed, the first call on
  an unchecked job ends on "awaiting", and a second, if it is recorded, leaves the caller's result;
  with the owned one listed last the first call already does. `ApprovalRuns.RepeatMatters` and
  `ApprovalRuns.ConfluentExactly` give the exact conditions, `Examples.SplitKeyExample` a contract.
* A final contract under job approval needs no governance signature
  (`Finalization.GovernanceNotRequired`).
* The comment above `jobApprovalRequired` (internal/httpapi/job_approval.go:71-75) widens job approval
  to contracts without an infrastructure when infra approval is off; the code does not, and the model
  follows the code.
* An approval call whose items are not all accepted is recorded, and signs the accepted ones, with
  any signature at all: only a data provider's that accepts everything is checked
  (`ApprovalSteps.RecordedExactly`).
  What such a call submitted then decides whether the job verifies
  (`ApprovalHistory.JobVerifiesExactly`).

## Model

| member | source | states |
|---|---|---|
| `Contracts.HashIgnoresExactlySignatures` | internal/contract/contract.go:277-302 | two contracts hash alike if and only if they differ in nothing but the stored hash, the governance and amendment signatures and the parties' signature blocks |
| `Contracts.ComputeHash` | internal/contract/contract.go:259-302 | hashing blanks copies of the three aliased party slices: the caller's contract reads the same afterwards |
| `Contracts.CopyDataProviders` | internal/contract/contract.go:283-288 | the copied data-provider slice is new memory, blanked element by element |
| `Contracts.PartyProviderId` | internal/httpapi/contract_signing.go:59-79 | every data provider has a provider id with the provider prefix, given or derived from the name |
| `ContractGen.BuildGeneratedContract` | internal/services/contractgen.go:92-245 | the party loops and derived fields build exactly the specified contract |
| `ContractGen.BuildContract` | internal/db/contracts.go:85-168 | the roster contract lists every accepted party, carrying over earlier signing times by name |
| `ContractGen.ExistingSignatures` | internal/db/contracts.go:55-83 | the map holds exactly the names with a recorded signing time, each with one of theirs |
| `ContractGen.GeneratedIsFresh` | internal/services/contractgen.go:92-245 | a stored generated contract matches its hash, has a valid governance signature if any, and no signature, withdrawal, expiry or amendment |
| `ContractGen.RosterIsFresh` | internal/db/contracts.go:85-168 | the same for a finalized FL roster contract |
| `ContractGen.GeneratedDatasets` | internal/services/contractgen.go:95-116 | one unsigned party per dataset: its provider's name or a default, version v1, open or private, and the key path its provider gave or the default one |
| `ContractGen.GeneratedOthers` | internal/services/contractgen.go:118-181 | for TEE and SMPC one party per infra, or a single one without an id; none otherwise; and the application's party |
| `ContractGen.GeneratedTerms` | internal/services/contractgen.go:183-213 | ids, technique, purpose, consumer, ninety days from now, and a compute choice for every technique |
| `ContractGen.WorkloadExactly` | internal/services/contractgen.go:118-134 | a workload exactly for a known application, its environment holding exactly the URLs there are |
| `ContractGen.GeneratedRun` | internal/services/contractgen.go:215-237 | with a workload, and only then, the first dataset's trustee and a callback are on the contract |
| `ContractGen.GeneratedSeal` | internal/httpapi/generate_contract.go:258-278 | a stored contract carries its own hash, no amendment, and the layer's signature over it if and only if it is no FL contract and needs no job approval, given the layer's key |
| `ContractGen.RosterFields` | internal/db/contracts.go:85-168 | the roster contract's parties with their carried-over signing times, its terms, version and hash, and that exactly a final roster is governance-signed |
| `SigningServer.Server.ProviderSignatures` | internal/httpapi/contract_signing.go:285-348 | the loop with its key cache and allValid flag reports each party's own status, and allValid is the conjunction of all |
| `SigningServer.Server.CheckParty` | internal/httpapi/contract_signing.go:285-348 | checking one signature through the cache gives what an uncached lookup would, and the cache stays faithful to the key registry |
| `SigningServer.Server.RequireAllProvidersSigned` | internal/httpapi/contract_signing.go:366-411 | the gate's verdict as specified; it passes if and only if the contract may run (`Verification.GateExactly`) |
| `SigningServer.Server.SignContract` | internal/httpapi/contract_signing.go:525-696 | refuses in the source's order or records the signature on every party of the caller, and nothing else changes |
| `SigningServer.Server.WithdrawConsent` | internal/httpapi/consent_withdrawal.go:24-112 | clears and stamps every party of the caller, once they had signed |
| `SigningServer.Server.SetConsentExpiry` | internal/httpapi/consent_expiry.go:49-204 | sets the expiry, clears recorded signatures, shortens the lifecycle, re-hashes and re-signs |
| `SigningServer.Server.EarliestExpiry` | internal/httpapi/consent_expiry.go:235-243 | the running minimum over the parties |
| `SigningServer.Server.CheckConsentExpiry` | internal/httpapi/consent_expiry.go:247-259 | passes if and only if no party's expiry lies before now |
| `SigningServer.Server.EditContract` | internal/httpapi/contract_edit.go:55-229 | the in-place edit, its change list and its refusals; an accepted edit is stored amended |
| `SigningServer.Server.AcceptInvite` | internal/db/contracts.go:248-299 | stamps the signing time of exactly the unsigned parties of that name, reporting whether there was one |
| `Verification.GateExactly` | internal/httpapi/contract_signing.go:366-411 | on every contract, under job approval or not, the gate opens if and only if an FL contract is a final roster, the content hashes to the stored hash or to one the layer signed as an amendment, a provider is named, every dataset's (and, where required, every infra's) signature is over the stored hash under the key its signer registered, and each dataset's its provider's own, the layer signed where the providers do not approve the job, and nobody's expiry lies before now |
| `Verification.ShutGateSays` | internal/httpapi/contract_signing.go:366-411 | which refusal a shut gate gives: the first of those demands that fails |
| `Verification.VerifiedMeans` | internal/httpapi/contract_signing.go:218-232 | the signature verdict holds if and only if the content stands, a provider is named, every signature verifies over the stored hash, and the governance one does where asked for |
| `Verification.StatusesMean` | internal/httpapi/contract_signing.go:285-348 | all statuses over a hash are valid if and only if every provider asked to sign has a signature that verifies over it, each infra's its owner's where one is named |
| `Verification.CheckExactly` | internal/httpapi/contract_signing.go:285-348 | a signature passes if and only if it verifies; a missing one, a withdrawn one, changed content, another hash and another signer are told apart |
| `Verification.ContentMatchesExactly` | internal/httpapi/contract_signing.go:234-252 | content is accepted if and only if it hashes to the stored hash or carries the layer's signature over what it hashes to |
| `Verification.NeedsJobApprovalExactly` | internal/httpapi/job_approval.go:59-88 | job approval is asked for if and only if there is a dataset and an infra with an id |
| `SigningSteps.SignExactly` | internal/httpapi/contract_signing.go:525-696 | exactly which signatures are taken: the caller's own over the stored hash, on content that stands, governance-signed, by a party with a registered key; an accepted one is on every party of theirs and nothing else changes |
| `SigningSteps.WithdrawExactly` | internal/httpapi/consent_withdrawal.go:24-112 | consent is withdrawn if and only if the contract is a TEE one the caller signed; every party of theirs then carries the withdrawal alone, and nothing else changes |
| `SigningSteps.ExpiryExactly` | internal/httpapi/consent_expiry.go:49-204 | exactly which expiries are taken: after now, within the original end, by a party who has not signed, on a governance-signed TEE or SMPC contract; each party, the lifecycle, the hash and the governance signature afterwards, and nothing else changes |
| `SigningSteps.EarliestExactly` | internal/httpapi/consent_expiry.go:235-243 | for every fallback, zero included, the loop's result is the least of the expiries and of the fallback if there is one, and 0 only without either |
| `SigningSteps.InviteExactly` | internal/db/contracts.go:248-299 | the parties that change are exactly the unstamped ones of that name, and only in their signing time, which is now |
| `EditSteps.EditExactly` | internal/httpapi/contract_edit.go:55-229 | exactly which edits are taken: the owner's, on a TEE contract, well formed and changing something; every field of the lifecycle, the parties, the workload, the application party and the trustee afterwards, the layer's amendment over what it hashes to, and nothing else changes |
| `EditSteps.DraftExactly` | internal/httpapi/contract_edit.go:99-216 | a draft is refused if and only if its times or its workload are, and its list of changes is empty if and only if nothing the edit names changes |
| `EditSteps.PartyExactly` | internal/httpapi/contract_edit.go:142-154 | which field of a dataset each field of the edit becomes, and when that is a change |
| `EditSteps.WorkloadExactly` | internal/httpapi/contract_edit.go:155-195 | what switching to a workload and overriding it leaves of image, resources and application party, and when that is a change |
| `SigningRuns.EveryRunKeepsInv` | internal/httpapi/contract_signing.go:87-107 | after every run of requests: content hashes to the stored hash or to a valid amendment's, the governance signature is over the stored hash, and each party's block is what its provider's latest consent event left |
| `SigningRuns.GateIsExactOverRuns` | internal/httpapi/contract_signing.go:366-411 | after any run, the gate opens if and only if the contract is signable, governance-signed and names a provider, and every provider's latest event is a signature over the current hash under their registered key with no expiry before now |
| `SigningRuns.GateReadsHistory` | internal/httpapi/contract_signing.go:366-411 | the same from any state satisfying the invariant |
| `SigningRuns.PartiesOfOneProviderAgree` | internal/httpapi/contract_signing.go:652-664 | all parties of one provider share signature and expiry; a recorded value is over the stored hash by a signer with that provider id, and excludes a withdrawal |
| `SigningRuns.SignKeepsInv` | internal/httpapi/contract_signing.go:525-696 | a signature keeps the joint invariant |
| `SigningRuns.WithdrawKeepsInv` | internal/httpapi/consent_withdrawal.go:78-89 | a withdrawal keeps it |
| `SigningRuns.ExpiryKeepsInv` | internal/httpapi/consent_expiry.go:121-153 | a set-expiry keeps it: no signature over the old hash survives |
| `SigningRuns.EditKeepsInv` | internal/httpapi/contract_edit.go:99-229 | an edit keeps it |
| `SigningRuns.InviteKeepsInv` | internal/db/contracts.go:248-299 | accepting a participation notification keeps it |
| `SigningRuns.AcceptedSign` | internal/httpapi/contract_signing.go:525-696 | an accepted signature is a valid one over the stored hash, whatever the amendment |
| `SigningRuns.ResignersSigned` | internal/httpapi/consent_expiry.go:121-153 | whoever is asked to sign again had signed every party of theirs |
| `SigningRuns.ExpiryShutsGate` | internal/httpapi/consent_expiry.go:121-153 | after any accepted set-expiry the gate is shut |
| `SigningRuns.WithdrawalShutsGate` | internal/httpapi/consent_withdrawal.go:78-89 | after any accepted withdrawal the gate is shut, and the hash is unchanged |
| `SigningRuns.SigningAgainUndoesWithdrawal` | internal/httpapi/consent_withdrawal.go:78-89 | if the gate was open before a withdrawal, signing again opens it again |
| `SigningRuns.EditKeepsFrame` | internal/httpapi/contract_edit.go:99-229 | an edit never touches who the parties are, their signatures or consents, the hash, the governance signature or the infra |
| `SigningRuns.AcceptedEditIsAmended` | internal/httpapi/contract_signing.go:255-276 | an accepted edit carries a valid amendment over its own content |
| `SigningRuns.EditKeepsVerdict` | internal/httpapi/contract_edit.go:99-229 | from matching content, an accepted edit changes no party's verdict and not the gate's answer at any time |
| `SigningRuns.ExactlyTwoContentsMatch` | internal/httpapi/contract_signing.go:234-252 | after an edit exactly two contents are accepted: the signed one and the edited one |
| `Validity.RunningMinimum` | internal/httpapi/consent_expiry.go:235-243 | from a non-zero fallback the loop's result is the least of it and the expiries set, and is one of them |
| `Validity.ValidityFollowsHistory` | internal/httpapi/consent_expiry.go:110-142 | after any edit-free run, the end is the least of the original end and each provider's last expiry, and the original end is kept exactly if one was set |
| `Validity.OrderDoesNotMatter` | internal/httpapi/consent_expiry.go:110-142 | two edit-free runs with the same last expiries leave the same lifecycle |
| `Validity.ExpiryLoopIsValidUntil` | internal/httpapi/consent_expiry.go:247-259 | the gate's loop agrees with the contract's end if and only if an expiry is set or the original end has not passed |
| `Examples.GateAfterEndExample` | internal/httpapi/contract_signing.go:366-411 | a concrete fully signed contract past its end, with no expiry set, passes the whole gate |
| `Payload.GeneratedInStep` | internal/services/contractgen.go:118-132 | the generated env, trustee and image equal the first dataset's URL and trustee and the application's image |
| `Payload.EditKeepsStep` | internal/httpapi/contract_edit.go:142-216 | an edit resyncs them |
| `Payload.PayloadStaysInStep` | internal/httpapi/contract_edit.go:142-216 | they stay in step after every run of requests |
| `Payload.SubContractMatchesParties` | internal/contract/contract.go:321-341 | a sub-contract with nothing missing carries the first dataset's URL and trustee and the application party's image, none of them blank |
| `JobServer.DataProviderApprovals` | internal/httpapi/job_approval.go:241-294 | writes the caller's results, and "awaiting" entries only for never-checked keys of others |
| `JobServer.InfraProviderApprovals` | internal/httpapi/job_approval.go:340-385 | the same for infras, its per-owner catalogue memo making no difference |
| `JobServer.LoadJobApprovalState` | internal/httpapi/job_approval.go:422-458 | the map-and-order loop equals the fold to the latest entry per key in first-seen order |
| `JobServer.ResolveOwners` | internal/httpapi/job_approval.go:316-332 | one owner per infra with an id, in order, known exactly if its policy names one |
| `JobServer.JobStore.SignDatasets` | internal/httpapi/job_approval.go:568-612 | the datasets signed are exactly those with an id under whose key some own entry is accepted |
| `JobServer.JobStore.HandleApproval` | internal/httpapi/job_approval.go:898-1000 | recorded if and only if the call may be, approved if and only if it accepts all the caller's items, and then exactly the approved parties are signed in the caller's name; a refused call changes nothing |
| `JobServer.JobStore.HandleDataProviderApproval` | internal/httpapi/job_approval.go:620-680 | one data-provider call: recorded if and only if it may be, and then exactly the datasets it approves are signed |
| `JobServer.JobStore.HandleInfraProviderApproval` | internal/httpapi/job_approval.go:858-896 | one infra-provider call, its own entries picked by their owner: recorded if and only if it may be, and then exactly the owner's accepted infras are signed |
| `ApprovalSteps.NamesExactly` | internal/httpapi/job_approval.go:110-150 | the names a caller goes by are exactly the provider id and the lower-cased form of their username and e-mail, and their sub |
| `ApprovalSteps.DatasetItem` | internal/httpapi/job_approval.go:241-294 | a dataset is the caller's if and only if its provider id or id is one of their names; its result is accepted if and only if they hold the role and the catalogue shows it as a data bank, each flag on its own |
| `ApprovalSteps.InfraOwnerItem` | internal/httpapi/job_approval.go:340-385 | an infra is the caller's if and only if its policy names them; its result is accepted if and only if they hold the role and their own catalogue lists it |
| `ApprovalSteps.StandingExactly` | internal/httpapi/job_approval.go:389-399 | a call's standing is approved if and only if all the caller's items are accepted and no other's unchecked item shares a key with one of theirs |
| `ApprovalSteps.RecordedExactly` | internal/httpapi/job_approval.go:620-680 | for both kinds, exactly which calls are recorded, what they answer, and which demand a refusal names; the signature is checked exactly for a data call that accepts everything |
| `ApprovalSteps.DataCallSignsExactly` | internal/httpapi/job_approval.go:568-612 | a recorded data call signs exactly the datasets under whose key some dataset of the caller's is accepted, with the caller's name and submitted hash and value, and changes nothing else |
| `ApprovalSteps.InfraCallSignsExactly` | internal/httpapi/job_approval.go:568-612 | a recorded infra call signs exactly the infras whose policy names the caller and whose catalogue lists them, and changes nothing else |
| `ApprovalSteps.CallSignsExactly` | internal/httpapi/job_approval.go:568-612 | both kinds at once |
| `ApprovalSteps.OthersSignaturesStand` | internal/httpapi/job_approval.go:568-612 | no call of either kind touches a dataset that shares a key with none of the caller's |
| `ApprovalSteps.ApprovedCallVerifies` | internal/httpapi/job_approval.go:757-790 | after an approved data call each dataset of the caller's verifies over the job's hash if and only if their login's provider id is its provider's |
| `ApprovalHistory.SignatureIsLastApproval` | internal/httpapi/job_approval.go:568-612 | after any run of calls and edits, a dataset or an infra carries the block of the last recorded call that approved it, and what it started with when none did |
| `ApprovalHistory.ConsentExactly` | internal/httpapi/job_approval.go:1172-1191 | so its signature verifies if and only if that call submitted the provider's own signature |
| `ApprovalHistory.JobVerifiesExactly` | internal/httpapi/job_approval.go:1172-1191 | after any run from a contract nobody had signed, a job's signatures verify if and only if, for one hash its content stands for, the last call to sign each party submitted that provider's own signature over it |
| `ApprovalHistory.GeneratedUnsigned` | internal/services/contractgen.go:95-181 | a generated contract is such a start |
| `JobApproval.SeenIffLast` | internal/httpapi/job_approval.go:422-458 | a key is listed if and only if it has a latest entry, which is in the log |
| `ApprovalRuns.CurrentHolds` | internal/httpapi/job_approval.go:422-458 | the current entries are exactly the last entry of every key |
| `ApprovalRuns.FirstSeenDistinct` | internal/httpapi/job_approval.go:422-458 | no key is listed twice |
| `ApprovalRuns.StandingMeans` | internal/httpapi/job_approval.go:389-399 | a side is approved if and only if it was checked and every key's latest entry is accepted, rejected if and only if some key's is not, and pending if and only if nothing of it was checked |
| `ApprovalRuns.AcceptedMeans` | internal/httpapi/job_approval.go:414-420 | accepted() if and only if that holds for the datasets and, where required, the infras; rejected if and only if one of those sides is |
| `ApprovalRuns.RecordedStatus` | internal/httpapi/job_approval.go:241-294 | where any recorded call leaves the latest entry of any key: the caller's own last result, or for a new key the last item's entry |
| `ApprovalRuns.CheckedRefusal` | internal/httpapi/job_approval.go:620-660 | once all keys of a kind are checked, a call's refusal depends on its own results alone |
| `ApprovalRuns.OthersEntriesStand` | internal/httpapi/job_approval.go:340-385 | a call never changes the current entry of a key its caller does not own |
| `ApprovalRuns.ConfluentExactly` | internal/httpapi/job_approval.go:241-294 | on any key, all runs of a set of calls, in any order and number, agree if and only if the callers who settle the key agree, a caller who alone settles it is not held back by an item of someone else's, and, when nobody settles it, every possible first call leaves it alike |
| `ApprovalOrder.OrderIndependentExactly` | internal/httpapi/job_approval.go:241-294 | the same for order alone, each call made once: if and only if all of that holds, except that a caller who alone settles the key may be held back when no other call of the kind can be recorded |
| `ApprovalRuns.ApprovalsAreConfluent` | internal/httpapi/job_approval.go:898-910 | calls order-free on every key leave the same current entries and the same verdict in any order and number |
| `ApprovalRuns.WholeKeysAreOrderFree` | internal/httpapi/job_approval.go:241-294 | callers who own keys whole, with the same result for a shared one, are order-free |
| `ApprovalRuns.RepeatMatters` | internal/httpapi/job_approval.go:241-294 | a call made twice differs on a key from the call made once if and only if it settles the key, the key was never checked, and its last item is someone else's |
| `Examples.SplitKeyExample` | internal/httpapi/job_approval.go:140-147 | a concrete contract and caller: with the caller's dataset listed before another of the same key, one call ends on "awaiting" and two accept; listed after it, one accepts |
| `Coverage.AcceptedIsEarned` | internal/httpapi/job_approval.go:389-458 | after any run of calls and edits, accepted means that the latest entry of each dataset's key is the accepted result of a recorded call whose caller owns a dataset under it by one of their names, holds the role and has it as a data bank in the catalogue, and, where infra is required, the same of each selected infra, the owner its policy names and their own catalogue |
| `Coverage.KeysAreExactlyTheContracts` | internal/httpapi/job_approval.go:241-294 | after a recorded call of either kind, the log's keys of that kind are exactly those of the contract's datasets or of its infras' owners |
| `Coverage.ProviderlessNeverAccepted` | internal/httpapi/job_approval.go:389-458 | a job with a provider-less dataset is never accepted |
| `Coverage.OwnerlessNeverAccepted` | internal/httpapi/job_approval.go:316-385 | where infra approval is required, a job with an infra nobody is known to own is never accepted |
| `Finalization.JobVerifiedExactly` | internal/httpapi/job_approval.go:744-755 | a job's signatures verify if and only if there is one hash, the content's own when none is stored and else the stored one its content stands for, that every dataset's provider and, where required, every infra's owner signed under a registered key |
| `Finalization.OwnersAreThePolicies` | internal/httpapi/job_approval.go:1172-1191 | the map the status call builds gives each infra the owner its policy names, and nobody without one |
| `Finalization.VerifiedUnderPolicies` | internal/httpapi/job_approval.go:1172-1191 | the same equivalence with the owners read off the policies |
| `Finalization.SealedVerifies` | internal/httpapi/job_approval.go:1003-1039 | a verified job is final if and only if every signature on its sealed contract verifies, which it does when the JSON carries the job id |
| `Finalization.VerifiedJobIsFinal` | internal/httpapi/job_approval.go:1172-1191 | a verified job contract carrying its job id verifies again once sealed: with no stored hash, a matching one, or amended content |
| `Finalization.FinalIffJobIdInJson` | internal/httpapi/job_approval.go:1075-1149 | a verified contract, amended or not, whose stored hash and amendment are over contents with the JSON's own job id becomes final if and only if the JSON carries the job id |
| `Finalization.GeneratedCarriesOwnJob` | internal/services/contractgen.go:92-245 | a generated contract's stored hash is over a content with its own job id |
| `Finalization.RunsCarryOwnJob` | internal/httpapi/contract_edit.go:99-229 | every run of approval calls and edits keeps that, and the job id |
| `Examples.ColumnOnlyExample` | internal/httpapi/job_approval.go:1103-1112 | a concrete contract that passes verification and never becomes final for want of the id; with it, it does, carrying no governance signature |
| `Finalization.GovernanceNotRequired` | internal/httpapi/contract_signing.go:109-115 | under job approval, dropping the governance signature changes no verdict |
| `Finalization.SealedHash` | internal/httpapi/job_approval.go:948-968 | sealing stores the hash the providers signed, leaves the content matching, and changes nothing else |
| `Finalization.LifecycleHolds` | internal/db/audit.go:106-144 | after any interleaving of statements, with regenerations and key registrations: finalized_at implies a final contract, tee_enabled_at implies finalized_at, and for every final contract an earlier statement found every signature on it verified over its hash under its signer's registered key, and its content matching |
| `Finalization.FinalNeverReplaced` | internal/db/final_contracts.go:25-32 | a final contract is never replaced by any later statement |
| `Finalization.StatusCallAlone` | internal/httpapi/job_approval.go:1075-1149 | the statements of a status call, run one after the other with nothing between them, leave what the handler leaves in one step, and nothing when it does not verify |
| `Finalization.UndisturbedCallFinalizes` | internal/httpapi/job_approval.go:1003-1039 | a status call that passes verification and is left to finish makes its job final |
| `Finalization.StampsStand` | internal/db/audit.go:106-144 | finalized_at and tee_enabled_at, once set, never move, whatever runs, until the row's selection is generated again |
| `JobTables.Tables.CreateFinalContract` | internal/db/final_contracts.go:25-32 | first writer wins, and only the first is told so |
| `Finalization.MarkedRows` | internal/db/audit.go:106-118 | marking stamps exactly the job's rows without a stamp, now, keeps the stamps there are, touches no other job's row, and marking again changes nothing |
| `Finalization.EnabledRows` | internal/db/audit.go:135-146 | the rows that change are exactly the job's final ones not enabled before, and only in their stamp, which is now |
| `Finalization.StoredRows` | internal/db/contracts.go:318-330 | storing replaces the contract in exactly the rows of its id, their job and stamps kept |
| `Finalization.RegenerationStartsOver` | internal/db/contracts.go:210-246 | a regenerated row is neither final nor enabled under its new job, other rows stand, and the old job's final contract is found unchanged after any later statements |
| `JobTables.Tables.SealContract` | internal/httpapi/job_approval.go:948-968 | stores a hash exactly for a contract that has none |
| `JobTables.Tables.FinalizeJob` | internal/httpapi/job_approval.go:1003-1039 | final exactly if every signature verifies, and then stored and stamped |
| `JobTables.Tables.GetJobStatus` | internal/httpapi/job_approval.go:1075-1149 | approved if and only if the job exists, needs approval, is accepted, and its providers all signed one hash its content stands for, each infra's owner the one its policy names; then final if and only if every signature on the sealed contract verifies, which holds when its JSON carries the id; the row and the stored final contract field by field; refusals change nothing, and no final contract is lost |
| `JobTables.Tables.EnableJobTee` | internal/httpapi/job_tee.go:34-75 | enabled if and only if the contract may run now (`Verification.MayRun`) and the job is final; the first stamp is kept |
| `NegotiationServer.Server.PostNotifications` | internal/httpapi/fl_notifications.go:17-98 | the recipients' loop: who is skipped, what each one's stored payload says, in order |
| `NegotiationServer.Server.PayloadFor` | internal/httpapi/fl_negotiation.go:59-112 | removed providers dropped from the three lists, and a request stamped with its round and warning |
| `NegotiationServer.DropRemoved` | internal/httpapi/fl_negotiation.go:86-112 | keeps exactly the names not removed |
| `NegotiationServer.Server.RespondToNotification` | internal/httpapi/fl_notifications.go:134-234 | an answer is taken if and only if the row is the sender's, not of a session they were removed from and not replaced; then the row carries exactly the answer given and every other row is as before; refusals change nothing; and the removal on a second decline |
| `NegotiationServer.Server.RemoveProviderFromSession` | internal/httpapi/fl_negotiation.go:119-222 | the removal row, the two notices and one update per remaining provider |
| `NegotiationServer.Server.SendUpdates` | internal/httpapi/fl_negotiation.go:191-220 | the counts read from the growing table are those from before the fan-out |
| `NegotiationServer.Server.RemainingAndWilling` | internal/httpapi/fl_negotiation.go:136-156 | the loop that builds both lists |
| `NegotiationServer.Server.NewerAsk` | internal/db/fl_notifications.go:309-319 | whether a newer ask has replaced a row |
| `NegotiationServer.Server.AnswerAsProvider` | internal/db/fl_notifications.go:147-168 | the answer recorded after a signature or a withdrawal changes exactly the named row, if it is addressed to the caller's provider id |
| `NegotiationServer.Server.SupersedeContractSignRequests` | internal/db/fl_notifications.go:186-200 | rewrites exactly the sign requests of the contract not superseded yet, and returns how many rows it changed |
| `NegotiationSteps.RespondExactly` | internal/httpapi/fl_notifications.go:134-234 | exactly which answers are taken and all that each leaves: the row's response is the answer given, and a decline removes its sender if and only if another ask of theirs for the session stands declined |
| `NegotiationSteps.AnsweredRows` | internal/db/fl_notifications.go:147-168 | a taken answer stands on its row, no other row changes, and rows are only appended |
| `NegotiationSteps.ApplyAnswers` | internal/db/fl_notifications.go:147-200 | whatever the request, a row changes by the answer it is given alone, and new rows are unanswered |
| `NegotiationSteps.ResponseIsLastAnswer` | internal/db/fl_notifications.go:147-200 | after every run, a row's response is the last answer given to it by its recipient, a signature, a withdrawal or a re-hash, and none if none was |
| `NegotiationSteps.FanOutExactly` | internal/httpapi/fl_negotiation.go:115-222 | a removal's notices and updates, field by field: the lists sent are exactly the requested and not removed, and exactly those of them whose newest request stands accepted; one update to each, at their newest request's id, with their number of requests and whether an ask of theirs stands declined |
| `NegotiationSteps.PostExactly` | internal/httpapi/fl_notifications.go:18-96 | a posting stores one row for each recipient that is not barred, in order, and none for the others, each saying what the rows before it make of the payload |
| `NegotiationSteps.StampedExactly` | internal/httpapi/fl_negotiation.go:61-112 | the payload stored for a recipient: the three lists without the removed, in order, and for a session's request its number and whether an ask of theirs stands declined |
| `NegotiationRuns.RunsKeepInv` | internal/httpapi/fl_notifications.go:157-214 | after every run, with every writer of answers: server-written asks carry the warning when an older one stands declined, and declines are at most two, and at most one for those not removed |
| `NegotiationRuns.RunsKeepExactInv` | internal/httpapi/fl_notifications.go:157-214 | for a recipient who is nobody's provider id, in runs that post them no ask of the session doubling as a request to sign: the warning is there exactly then, and the removed have exactly two declines |
| `NegotiationAnswers.RemovedIffTwoDeclines` | internal/db/fl_notifications.go:220-248 | in all runs that post a recipient no ask of the session doubling as a request to sign, removed is exactly two standing declines, if and only if the recipient is nobody's provider id |
| `NegotiationRuns.DeclinesBounded` | internal/db/fl_notifications.go:220-248 | for everyone: at most one decline stands, or two once removed |
| `NegotiationRuns.UnwarnedRemovalExactly` | internal/httpapi/fl_negotiation.go:191-218 | over all runs, an answer removes its sender unwarned if and only if it declines their newest ask, not declined before, a client-posted update without the warning, while exactly one older ask stands declined |
| `NegotiationRuns.RemovesExactly` | internal/httpapi/fl_notifications.go:192-214 | an answer removes its sender if and only if it declines their newest ask, not declined before, while exactly one older ask stands declined |
| `NegotiationRuns.NobodyRemovedUnwarned` | internal/httpapi/fl_notifications.go:64-83 | where clients post no updates themselves, nobody is removed unwarned |
| `NegotiationRuns.UnwarnedRemovalExample` | internal/httpapi/fl_notifications.go:157-214 | a concrete run of three steps that does so |
| `NegotiationAnswers.SupersededIsFrozen` | internal/httpapi/fl_notifications.go:167-180 | an ask a newer one has replaced stays as it is whatever follows, if and only if its recipient is nobody's provider id and it is no request to sign or stands superseded as one |
| `NegotiationAnswers.AnswersById` | internal/httpapi/contract_signing.go:680-684 | in every state, signing or withdrawing with the id of a declined ask addressed to the caller's provider id undoes that decline, superseded or removed or not |
| `NegotiationAnswers.SigningRewrites` | internal/httpapi/consent_withdrawal.go:104-108 | for everyone who signs, asked under their provider id: a run in which they are removed and their superseded decline is then rewritten, leaving one decline standing |
| `NegotiationAnswers.RehashRewrites` | internal/httpapi/consent_expiry.go:160-172 | for every recipient: a run of asks that double as requests to sign, in which they are removed and a re-hash then rewrites their superseded decline |
| `Text.SignerIdsExactly` | internal/httpapi/contract_signing.go:59-66 | the ids somebody signs under are exactly the prefix followed by a slug, the empty one included |
| `NegotiationRuns.RequestsAreNumbered` | internal/httpapi/fl_notifications.go:64-83 | after every run, each provider's requests for a session are stamped with rounds 1, 2, 3 and so on in order |
| `NegotiationAnswers.RemovalIsPermanent` | internal/httpapi/fl_notifications.go:43-58 | once removed, for everyone: removed for good, no session notification reaches them, and no answer of theirs turns into a decline |
| `NegotiationAnswers.RemovedAnswersAreFinal` | internal/httpapi/fl_notifications.go:157-166 | a removed recipient's rows stay as they are whatever follows, if and only if they have none, or are nobody's provider id and each row is no request to sign or stands superseded as one |
| `NegotiationRuns.FanOutReachesTheRemaining` | internal/httpapi/fl_negotiation.go:136-220 | a removal sends one new ask to each requested provider still in the session, and none to anyone else |
| `TeeOutcome.OutcomeNames` | internal/httpapi/tee_outcome.go:109-120 | an outcome text contains run A's marker if and only if it is A's own or its quoted reason contains it |
| `TeeOutcome.OwnMarker` | internal/httpapi/tee_outcome.go:109-120 | whatever the id, the recorded text contains the marker the check searches for |
| `TeeOutcome.StartRoundTrip` | internal/httpapi/job_tee.go:203-218 | the id extracted from a run_started text is the one printed, for exactly the ids over A-Za-z0-9._- |
| `TeeServer.Recorder.SettleTeeRun` | internal/httpapi/tee_outcome.go:77-126 | appends an event if and only if the job has ended, is identified, no outcome names it and an owner is known; the event is a success if and only if the job succeeded, its text says how it ended, and it is under the contract row's job or else that of the contract's newest event with one; reports whether the job is final |
| `TeeServer.Recorder.HasTEERunOutcome` | internal/db/contract_events.go:80-87 | whether some outcome event of the contract contains the marker |
| `TeeServer.Recorder.ContractEventJobId` | internal/db/contract_events.go:125-131 | the newest non-blank job id of the contract's events |
| `TeeServer.Recorder.WatchTeeRun` | internal/httpapi/tee_outcome.go:130-145 | leaves what settling the first final answer before the deadline leaves, and nothing without one |
| `TeeOutcome.SettleExactly` | internal/httpapi/tee_outcome.go:77-126 | the same of settling as one step, field by field, with the texts spelled out |
| `TeeOutcome.OwningJobExactly` | internal/httpapi/tee_outcome.go:95-107 | the job recorded is the contract row's when it has one, else that of the contract's newest event with one |
| `TeeRuns.OutcomeIsTold` | internal/httpapi/tee_outcome.go:109-124 | over every interleaving, each recorded outcome is a success if and only if the coordinator said the job succeeded, tells in its text how it ended, and is under the owner a step of the goroutine settling it found |
| `TeeRuns.UndisturbedSettles` | internal/httpapi/tee_outcome.go:77-126 | from any state with the mutex free, a goroutine left alone leaves what the whole handler does, and the mutex free |
| `TeeRuns.OutcomeRecordedOnce` | internal/httpapi/tee_outcome.go:71-126 | statement by statement, any number of goroutines, with restarts: no coordinator job's outcome is recorded twice for a contract |
| `TeeRuns.RecordIsSettle` | internal/httpapi/tee_outcome.go:86-126 | every recording equals the whole handler as one atomic step |
| `TeeRuns.ReleasedMeansRecorded` | internal/httpapi/tee_outcome.go:86-126 | a goroutine that found or recorded the outcome leaves it named for good |
| `TeeRuns.HasOutcomeExactly` | internal/db/contract_events.go:80-87 | "already recorded" if and only if the run was settled or another's reason quotes it |
| `TeeRuns.UnsettledExactly` | internal/db/contract_events.go:95-120 | the runs listed are exactly those started in the window, not settled and not quoted |
| `TeeRuns.StartedMinusSettled` | internal/db/contract_events.go:95-120 | without such quotes, exactly started minus settled |
| `TeeRuns.QuotedRunIsHidden` | internal/httpapi/tee_outcome.go:86-126 | a quoted run is never listed and its own outcome never recorded |
| `TeeRuns.QuoteExample` | internal/httpapi/tee_outcome.go:109-120 | a concrete reason that quotes another run |
| `ModelFiles.ParseExactly` | internal/httpapi/model.go:28-28 | the file name expression splits a name in at most one way, and the parser finds it if and only if it exists |
| `ModelFiles.CandidateExactly` | internal/httpapi/model.go:61-88 | a directory entry is a model if and only if it is a readable file whose name splits, and says what its name and metadata do |
| `ModelFiles.NameRoundTrip` | internal/httpapi/fl_output.go:293-293 | a stored name reads back as its session and round, for every safe id, even one holding "_round_" and digits |
| `ModelFiles.SessionIds` | internal/httpapi/fl_output.go:55-61 | every raw id of 1 to 200 characters is usable; safe ids are kept as they are |
| `ModelFiles.NameFits` | internal/httpapi/fl_output.go:48-61 | every stored name fits 255 characters |
| `ModelFiles.FlSessionModel` | internal/httpapi/fl_output.go:66-101 | the scan's result is the running best of the listing |
| `ModelFiles.ScanSessions` | internal/httpapi/model.go:61-88 | the map holds the running best of every session at once |
| `ModelFiles.ListFinalModels` | internal/httpapi/model.go:53-96 | one final model per session that has a readable file, newest first |
| `ModelFiles.BestIsFinal` | internal/httpapi/fl_output.go:74-99 | the running best is the readable file of the highest round, the first of those, and is absent only without any |
| `ModelFiles.ScansAgree` | internal/httpapi/model.go:53-96 | for every session and listing the two scans name the same file and round |
| `ModelFiles.StoringIsLocal` | internal/httpapi/fl_output.go:293-294 | storing a session's model changes no other session's final model |
| `ModelFiles.StoredIsServed` | internal/httpapi/fl_output.go:293-294 | a stored model is served as soon as its round is above all listed ones |
| `Grouping.GroupUserJobs` | internal/httpapi/job_participants.go:183-210 | one entry per job, described by its first row and listing exactly its rows in order |
| `Grouping.ShownExactly` | internal/httpapi/job_participants.go:183-210 | a listed job's header is its first row's, its state is read off that row's stamps, and its parts are its rows field by field |
| `Grouping.GroupingConserves` | internal/httpapi/job_participants.go:183-210 | grouping keeps as many values as rows, no group is empty, keys are distinct and occur exactly if they have a row |
| `Grouping.FirstAppearance` | internal/httpapi/job_participants.go:183-210 | groups come in order of first appearance |
| `Grouping.PositionsExact` | internal/httpapi/job_participants.go:183-210 | a group holds exactly the rows of its key, in their order |
| `Grouping.FilterJobParticipants` | internal/httpapi/job_participants.go:281-289 | keeps the accepted rows in order |
| `Grouping.ListedJobs` | internal/httpapi/job_participants.go:294-322 | a job is listed if and only if some row of it is kept |
| `Grouping.JobParticipantRows` | internal/httpapi/job_participants.go:37-75 | the consumer's row first, then each dataset's and each owned infra's, provider known or not; what the rows say was asked of whom is exactly what the job requests ask |
| `Grouping.JobRequests` | internal/httpapi/job_request.go:59-98 | one request per role and provider, in first-appearance order |
| `Grouping.RequestBuilder.Add` | internal/httpapi/job_request.go:72-84 | the closure keeps the requests and their index equal to the grouping so far |
| `Grouping.JobItemsExactly` | internal/httpapi/job_request.go:59-98 | the items asked about are exactly the datasets with a provider, by catalogue id or else name, and the infras with an owner, by the last name listed for them |
| `Grouping.RequestsCover` | internal/httpapi/job_request.go:59-98 | every item with a known provider is in the one request of its role and provider, in contract order, and in no other |

## Left out

- HTTP decoding, tokens, routing, CORS, logging, configuration, mail, the az and grpcurl commands, and the APD, Keycloak and DX clients: their answers are parameters of a step.
- Real RSA, SHA-256, X.509, PEM and JSON text: hashes and signatures are symbolic, and a stored contract reloads as the same value.
- POST /contract, which stores caller-supplied contracts outside the signing protocol.
- Lost updates between concurrent load, change and store handlers: signing and approval handlers are atomic steps.
- Database errors: every statement succeeds.
- Key lookups of one verification are one statement: a key registered between two of them is not modelled, one registered between verification and insert is.
- Unicode: case folding and trimming are those of ASCII, and a string is a sequence of characters, so the byte length of a non-ASCII submission id is that of its sanitised form.
- Negotiation.Requested: a removal lists the remaining providers in order of first request, where the database orders them by name; which providers, and how often, is the same.
- Message texts of notifications, the read flag, response messages and timestamps.
- Sending CONTRACT_SIGN and JOB_REQUEST notifications, and that a signature or a withdrawal must succeed before it answers a notification: the runs let it answer at any time.
- SigningSteps.EarliestExactly: an expiry at the zero time is outside it; set-expiry requests made after that time never set one.
- Validity.ValidityFollowsHistory: runs with consumer edits, which may move the end, and contracts with no original end are outside it.
- Finalization.FinalIffJobIdInJson: a contract whose stored hash or amendment is over a content with another job id than its JSON's is outside it; generation, approval calls and edits never make one.
- Coverage.AcceptedIsEarned: its dataset side is about jobs whose datasets carry a catalogue id, since a consumer edit may rename, and so re-key, a dataset without one; its infra side is about all jobs.
- That every approval signature is checked on receipt: with a mix of accepted and rejected own items it is not, and only the later cross-check counts.
- POST /v1/tee/run, which stamps tee_enabled_at directly and sends the payload, the TEE session goroutine, and the policy and grant calls after an approval.
- Audit timestamps and the catalogue's reason texts; the audit key is a tuple where the source joins strings with NUL.
- Party counts, which are the lengths of their lists.
- The multipart upload, the metrics readers and the download handlers around the model files.
- The VM registry, the disabled workload gate and the API documentation.
