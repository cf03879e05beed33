# Elysia: verified models of its bounded core

Dafny models of the parts of Elysia that promise something checkable, with proofs of
those promises:

| part | files | modelled from |
|---|---|---|
| ScientificForge workflow checker | `ScientificIr`, `NodeFields`, `Registry`, `Tables`, `ExpressionCheck`, `Dimensions`, `LinearContract`, `LinearInputs`, `WorkflowCheck`, `WorkflowFaults`, `WorkflowRun`, `NumericProvenance` | `core/scientific_validation.py`, `core/scientific_registry.py`, `core/scientific_linear_contract.py` |
| Governed model invocation | `OwnedProvider`, `ProviderRuns`, `Admission`, `Candidates`, `Invocation`, `AdmittedRequest`, `StreamAssembly` | `core/owned_model_provider.py`, `core/runtime.py`, `core/model_invoker.py` |
| UUIDv7 generator | `Ids` | `app/ids.py` |
| Read-only organs | `ApprovedRepos`, `ApprovedReposRoundTrip`, `Scalars`, `SafeTree`, `TableSummary` | `core/repo_context_gatherer.py`, `core/data_executor.py` |
| Measured model selector | `ModelSelector` | `core/model_routing.py` |

`Wrappers`, `Sequences`, `Text` and `Folds` are shared. `dafny verify dfyconfig.toml` checks everything.

What is environment in the source is a parameter here: clock readings, random bits,
cancellation, the governor's answers, the inventory and resource readings, provider
results, directory listings, and the schedule of the threads. The theorems hold for all of
their values, with two provisos that are stated where they are needed: the monotonic clock
of an invocation does not run backwards (`Invocation.ClockRuns`; the identifier generator
has no such proviso), and a directory does not list a name twice (`SafeTree.DistinctNames`).
Reals stand for floats; rounding is not modelled. No proof relies on automatic induction.

## Where the code does less than its documentation says

The model keeps the code as it is; the exact condition is proved in each case.

* `app/ids.py`: a first clock reading before 1970 leaves the stored millisecond at -1,
  which masks to the largest 48-bit timestamp (`Ids.ClockBeforeEpochBreaksOrder`).
  `Ids.OrderExact` says for every state and reading whether the next identifier sorts above
  the last one: without a fresh reading it does unless the counter wraps in the last
  millisecond of a 48-bit epoch.
* `core/runtime.py`: the ledger of leases and reservations balances unless a reading
  raises at one of two moments. Between giving the old handles back and deciding again,
  the exception path gives them back twice; after the invocation, with a lease still held,
  nothing gives it back. `AdmittedRequest.RunAdmitted` states the exact condition on what
  the request meets, `AdmittedRequest.WorkingReadingsBalance` that working readings are
  enough, and `AdmittedRequest.ReadingAfterFailureUnbalances` and
  `AdmittedRequest.FailedFinalReadingKeepsLease` give a request for each failure.
* `core/repo_context_gatherer.py`: the warning that the tree was cut off is not given
  when everything left out lies under the last entry listed, nor when the limit is zero
  (exactly: `SafeTree.WalkSafeTree`; an instance: `SafeTree.CutInsideLastEntryIsSilent`).
  A list below a key of `inspection_defaults` raises at its first item
  (`ApprovedReposRoundTrip.ListUnderDefaultsRaises`, `ApprovedRepos.RaisesExactly`).
* `core/model_routing.py`: when the most efficient model is cooling down the replacement
  is the first healthy one in configured order, not the most efficient healthy one
  (exactly: `ModelSelector.Select`; an instance: `ModelSelector.FallbackIsNotTheBest`).

## Model

| member | source | states |
|---|---|---|
| ExpressionCheck.SubtermsStep | core/scientific_validation.py:41-66 | obeying the rules along every path of a tree is obeying them at the root and along every path of every argument, one level deeper |
| ExpressionCheck.PayloadExact | core/scientific_validation.py:46-57 | the payload rule, kind by kind: a number has a value and nothing else; a rational two integers within 10^30, the denominator not zero; a symbol the name of a declared symbol; an operator nothing; each violation is named by the error of its kind |
| ExpressionCheck.LocalExact | core/scientific_validation.py:41-63 | a single term passes the checks made on it exactly when it has the number of arguments of its kind, carries what its kind carries and nothing else, and has a small integer literal as its exponent |
| ExpressionCheck.CheckExact | core/scientific_validation.py:41-67 | the checker accepts exactly the expressions whose every subterm has the right arity, payload and declared symbol, whose exponents are integer literals within 16, with depth at most 16 and at most 256 nodes, and returns the exact number of nodes |
| ExpressionCheck.CheckNamesFault | core/scientific_validation.py:41-67 | the error that rejects an expression is the fault of one of its terms: too deep, the wrong number of arguments, the wrong payload for its kind, an unbounded exponent, or too many nodes below it |
| ExpressionCheck.CheckAllExact | core/scientific_validation.py:64-66 | the same for a list of arguments, with the sum of their sizes |
| ExpressionCheck.AcceptedIsWellFormed | core/scientific_validation.py:41-67 | an accepted expression obeys the local rules throughout, by structure |
| Dimensions.Covariance | core/scientific_validation.py:97-119 | dimensional soundness: if inference gives dimension d, evaluating in any other base units is defined exactly when the original evaluation is and equals it times the factor of d, through integer powers, square roots, division and transcendentals |
| Dimensions.PowerFactor | core/scientific_validation.py:111-112 | the factor of an integer multiple of a dimension is the integer power of its factor, negative exponents included |
| Dimensions.HalfFactor | core/scientific_validation.py:113-114 | the factor of half a dimension squares to the factor of the dimension |
| Dimensions.RelationInvariant | core/scientific_validation.py:363-365 | a relation whose sides have one dimension is true in one system of units exactly when it is in any other |
| Dimensions.RateOfChangeInvariant | core/scientific_validation.py:366-372 | the state-equation rule: a right-hand side of dimension state over time transforms as the rate of change does |
| Dimensions.SumNeedsOneDimension | core/scientific_validation.py:103-106 | the equal-dimension rule cannot be relaxed: inference rejects the sum of two symbols of different dimensions, and in base units that rescale them differently no factor at all turns every old value of the sum into the new one |
| Dimensions.InferExact | core/scientific_validation.py:97-119 | inference finds dimension d exactly when the expression has it: the sides of a sum have d, factors have dimensions that add up to d, a quotient the difference, a power the multiple, a root the half, and transcendental functions take and give dimensionless values |
| Dimensions.InferFailsExactly | core/scientific_validation.py:97-119 | inference fails with exactly the error that the judgement of failing expressions gives: the first argument without a dimension, or the rule that its own dimensions break |
| Registry.SpecsAreWellFormed | core/scientific_registry.py:51-84 | no operation of the fixed table declares an input or output port twice |
| Tables.TableSize | core/scientific_validation.py:208-211 | a dictionary is as long as the list it is built from exactly when no key repeats |
| Tables.TableLookup | core/scientific_validation.py:233-237 | with distinct keys the dictionary holds exactly the listed entries |
| WorkflowCheck.SymbolTableExact | core/scientific_validation.py:208-211 | the duplicate check of symbols is exact, and then each symbol is found under its own name |
| WorkflowCheck.SourceTableExact | core/scientific_validation.py:209-211 | the duplicate check of sources is exact, and the table knows exactly the declared sources |
| WorkflowCheck.ShapeExact | core/scientific_validation.py:70-86 | a value has a shape exactly as a finite number, a list of up to 100000 of them, or up to 64 rows of one length up to 64; otherwise the error says why it has none |
| WorkflowCheck.SymbolsErrorExact | core/scientific_validation.py:217-224 | no symbol is rejected exactly when every unit is well written, every value has its declared shape and a provenance, and every pair of bounds is ordered |
| WorkflowCheck.SeenProduces | core/scientific_validation.py:250-252 | the loop's dictionary answers a reference exactly when a strictly earlier node declares that output with that shape |
| WorkflowCheck.PortExact | core/scientific_validation.py:236-254 | a port is accepted exactly when a literal, a symbol with a value, a permitted source or a strictly earlier node supplies the registered shape |
| WorkflowCheck.HeaderExact | core/scientific_validation.py:226-235 | the checks before the ports pass exactly for a fresh identifier, a registered operation, known diagnostics and exactly the registered input ports |
| WorkflowCheck.NodePortsExact | core/scientific_validation.py:236-254 | all ports of a node pass exactly when every input supplies the shape registered for its port |
| WorkflowCheck.CountExact | core/scientific_validation.py:269-274 | counting succeeds exactly when every expression is acceptable, and adds their exact sizes |
| NodeFields.FieldsExact | core/scientific_validation.py:255-318 | the checks on a node's optional fields pass exactly when every field is given to an operation that takes it and to no other, and is well formed |
| NodeFields.OneEquationEach | core/scientific_validation.py:298-304 | the three tests on state equations are exact: each state has one equation and nothing else does |
| NodeFields.UnitExact | core/scientific_validation.py:89-94 | a unit is accepted exactly if it is the word dimensionless, or a letter and up to 47 letters, digits and permitted marks without two dots or two slashes in a row |
| LinearInputs.InputsExact | core/scientific_linear_contract.py:7-31 | JSON inputs are accepted exactly when they denote a linear program that obeys every rule |
| WorkflowCheck.ConcreteExact | core/scientific_validation.py:319-326 | a linear program is checked on the values stated in it: a literal as it stands, a symbol by its value |
| LinearInputs.ErrorsAgree | core/scientific_linear_contract.py:7-31 | JSON values that denote a program are rejected with the very error of that program |
| LinearContract.ValidateNamesFault | core/scientific_linear_contract.py:7-31 | the error that rejects a linear program is a fault that it has |
| WorkflowCheck.DetailsExact | core/scientific_validation.py:255-326 | with its expressions counted, a node passes the checks on its own fields exactly when they are as they should be and the count within 2048 |
| WorkflowCheck.NodeStepExact | core/scientific_validation.py:225-327 | a node is accepted exactly when it is typed and the total size stays within 2048; the declared outputs grow by exactly its own |
| WorkflowCheck.OutputsExact | core/scientific_validation.py:328-331 | the requested outputs pass exactly when some node declares each of them and every unit is well written |
| WorkflowCheck.ValidateExact | core/scientific_validation.py:206-331 | the structural checks accept exactly the workflows that the declarative typing judgement admits, and the count they keep is the exact total expression size |
| WorkflowCheck.CheckPorts | core/scientific_validation.py:236-254 | the port loop reports the first failing port in order |
| WorkflowCheck.CheckExpressions | core/scientific_validation.py:269-274 | the counting loop computes the specified running total or the first failing expression |
| WorkflowCheck.CheckNodes | core/scientific_validation.py:225-327 | the node loop computes the fold of the node checks, stopping at the first error |
| WorkflowCheck.CheckSymbols | core/scientific_validation.py:217-224 | the symbol loop reports the first failing symbol |
| WorkflowCheck.CheckOutputs | core/scientific_validation.py:328-331 | the output loop reports the first failing output |
| WorkflowCheck.ValidateWorkflow | core/scientific_validation.py:206-331 | the procedure reports the first error in source order and succeeds exactly on well-typed workflows, with the exact expression total, at most 2048 |
| WorkflowFaults.RejectionNamesFault | core/scientific_validation.py:206-331 | no workflow is rejected for a fault that it does not have: whichever error is raised, the symbol, port, field, expression, linear program or output it is about is wrong in just that way |
| WorkflowCheck.AcceptedProgramIsBounded | core/scientific_validation.py:319-326 | a linear program stated outright in an accepted workflow is acceptable: every solution certified without violation is feasible and bounded, and so is its objective |
| WorkflowRun.SuppliedIsReceived | core/scientific_validation.py:236-254 | an input that the judgement lets supply a shape delivers a value of that shape at run time |
| WorkflowRun.NodeIsReady | core/scientific_validation.py:233-254 | a typed node whose predecessors delivered receives arguments that fit its registered ports |
| WorkflowRun.NeverStuck | core/scientific_validation.py:225-254 | for any shape-respecting operations, in-order evaluation of a well-typed workflow never gets stuck and every node delivers its declared outputs in their shapes |
| WorkflowRun.AcceptedDeliversOutputs | core/scientific_validation.py:327-330 | what the checker accepts can be evaluated to the end, and every requested output exists in the shape its operation declares |
| NumericProvenance.PushLeaves | core/scientific_validation.py:152-158 | the explicit stack terminates and visits exactly the leaves that recursion visits, each as often, in reversed order |
| NumericProvenance.CollectSymbols | core/scientific_validation.py:144-158 | the symbol loop accepts exactly permitted provenances and collects their numbers |
| NumericProvenance.CollectNodes | core/scientific_validation.py:159-182 | the node loop accepts exactly permitted literals and collects literals, expressions, initial conditions, bounds and time ranges |
| NumericProvenance.CheckProvenance | core/scientific_validation.py:133-184 | acceptance is exactly: every assumption is in the message, no value claims a factual provenance, undeclared assumptions do not occur, and every checked number is stated in the message or is -1, 0 or 1; each error names a fault that is there |
| NumericProvenance.ExpressionExact | core/scientific_validation.py:122-130 | the numbers collected from a checked expression are exactly those that some term of it states: a number its value, a rational its numerator and its denominator |
| NumericProvenance.CheckedExactly | core/scientific_validation.py:143-184 | nothing escapes and nothing else is asked for: the numbers compared with the message are exactly those that occur in symbols and literals no assumption covers, in the expression, the objective and both sides of every relation, and as initial conditions and ends of bounds and time ranges |
| NumericProvenance.VouchedExactly | core/scientific_validation.py:143-184 | the test on the collected numbers passes exactly when the message states every number that occurs where it has to vouch for it |
| LinearContract.ViolationIsLeastTolerance | core/scientific_linear_contract.py:39-44 | the reported violation is within eps exactly when every row and both bounds hold up to eps; zero exactly for feasible solutions |
| LinearContract.ViolationIsConvex | core/scientific_linear_contract.py:39-44 | the violation is convex in the solution |
| LinearContract.DotOfMix | core/scientific_linear_contract.py:39-40 | the inner product is affine along a segment |
| LinearContract.DotIsTotal | core/scientific_linear_contract.py:39-40 | the inner product is the sum of the products of all pairs |
| LinearContract.RoundIsNearest | core/scientific_linear_contract.py:43 | rounding picks a nearest integer, and the even one of two |
| LinearContract.IntegralityIsDistanceToIntegers | core/scientific_linear_contract.py:43 | the integrality violation is within eps exactly when every flagged coordinate is within eps of an integer |
| LinearContract.CertificateMeans | core/scientific_linear_contract.py:34-45 | a certificate is given exactly for a coordinate per variable; its violations are the least tolerances of constraints and integrality, and its objective is the cost of the solution |
| LinearContract.CertifiedIsBounded | core/scientific_linear_contract.py:7-45 | a solution of accepted inputs certified without violation is feasible and bounded, and so is its objective |
| OwnedProvider.StepKeepsInv | core/owned_model_provider.py:107-142 | every atomic step of the main thread, the watcher, a guard callback or the operating system keeps the ownership invariant |
| OwnedProvider.RunKeepsInv | core/owned_model_provider.py:196-282 | the invariant holds after every schedule |
| OwnedProvider.ReasonIsFinal | core/owned_model_provider.py:107-110 | in every interleaving a recorded reason never changes and no process is started after it |
| OwnedProvider.KilledOrGone | core/owned_model_provider.py:107-115 | whenever nobody holds the lock, a started process whose owner has a reason has been sent SIGKILL |
| OwnedProvider.OneHolder | core/owned_model_provider.py:108-115 | two threads are never inside the locked regions together |
| OwnedProvider.OkMeansCleanStop | core/model_invoker.py:601-636 | a result reported ok means that the scope completed, the group was killed, and no process of it is active then or later |
| OwnedProvider.OutcomeIsExplained | core/model_invoker.py:601-636 | in every interleaving each reported flag is set exactly if the recorded reason, the exchange's own report or, for resources, a surviving process sets it, and success is reported exactly if the exchange answered, the scope completed and nothing survived |
| OwnedProvider.CutOffIsReported | core/model_invoker.py:621-635 | a recorded cancellation, deadline or resource cut-off is reported under its own flag and never as success, and neither is a surviving process |
| OwnedProvider.ReasonHasItsCause | core/owned_model_provider.py:107-142 | in every interleaving a recorded reason has its cause: cancellation or expiry was read by a check, the log had grown too large, close had begun, or a guard callback named that very reason |
| OwnedProvider.FlagsHaveTheirCause | core/model_invoker.py:621-635 | no cut-off is blamed on the wrong party: a reported cancellation was read, named by a guard or reported by the exchange, and so was a reported deadline |
| OwnedProvider.NeverStuck | core/owned_model_provider.py:196-284 | until the main thread has finished, it or the lock's holder has an enabled step |
| ProviderRuns.MainFollowsProgram | core/owned_model_provider.py:196-284 | whatever the threads do, the main thread takes its points in program order |
| ProviderRuns.QuietScopeReportsExchange | core/owned_model_provider.py:196-284 | a scope that nobody disturbs runs to its end and reports just what the exchange returned, success for an answer and its own flags for a failure |
| OwnedProvider.AbortUninterrupted | core/owned_model_provider.py:107-115 | an uninterrupted abort is exactly the four steps of the machine |
| OwnedProvider.CheckUninterrupted | core/owned_model_provider.py:117-123 | the complete effect of a check that nobody interrupts: it records what it read unless a reason stands, kills a running process if it read something, and raises exactly with a reason, which stops the watcher and makes the main thread close |
| OwnedProvider.Provider.Abort | core/owned_model_provider.py:107-115 | the first reason is kept and a running process is signalled each time; an object that represents a state of the machine is taken where an uninterrupted abort takes the machine |
| OwnedProvider.Provider.Check | core/owned_model_provider.py:117-123 | raises exactly when a reason was recorded, cancellation or expiry is observed, recording the cause it observed, cancellation before expiry; an object that represents a state of the machine is taken where an uninterrupted check takes the machine |
| OwnedProvider.Provider.Close | core/owned_model_provider.py:258-284 | records scope completion unless another reason stands and signals once; raises exactly when the killed process is not reaped in time, and otherwise reports the first empty scan or the last one before the clean-up deadline |
| Admission.RequestCompute.constructor | core/runtime.py:3597-3599 | an admitted request holds exactly the handles of its first decision |
| Admission.RequestCompute.Readmit | core/runtime.py:3604-3648 | a change of model gives back the old handles and either holds exactly those of a decision made for the new model or a refusal with none, the admitted tag then unchanged |
| Admission.RequestCompute.FailReadmission | core/runtime.py:3607-3616 | a reading that fails after the old handles were given back leaves the decision naming handles it no longer has |
| Admission.RequestCompute.Prepare | core/runtime.py:3601-3661 | an attempt passes only on a decision made for that very model which neither rejects nor defers; it is refused exactly on a stop, a refusing decision, or a private profile without GPU admission; the account changes as specified |
| Admission.Handles | core/runtime.py:3607-3613 | a decision stands for at most one lease and one reservation |
| Candidates.DedupeKeepsFirsts | core/model_invoker.py:300-312 | deduplication keeps exactly the first candidate of every declared tag, in order of first declaration |
| Candidates.DeclaredExact | core/model_invoker.py:232-298 | the declared candidates are exactly the tags that are not blank in the four places of a role entry, each with the model at its own position if there is one |
| Candidates.SegmentGrows | core/model_invoker.py:259-298 | later tags of a list only add candidates behind those of earlier ones |
| Candidates.DeclaredInOrder | core/model_invoker.py:232-298 | the single preferred tag is first, then the preferred, the fallback and the supplementary ones |
| Candidates.RoutedFirstMoves | core/model_invoker.py:1091-1096 | the sort moves the routed candidate to the front and nothing else |
| Candidates.RoutedFirstKeepsTags | core/model_invoker.py:1091-1096 | it neither adds, drops nor repeats a tag |
| Candidates.DropRepeats | core/model_invoker.py:300-312 | the loop with its set of seen tags computes the deduplication |
| Candidates.BuildRuntimeCandidates | core/model_invoker.py:232-312 | preferred, fallback and supplementary candidates in declaration order, each tag once |
| Invocation.PlanShape | core/model_invoker.py:1091-1145 | routing and narrowing leave a duplicate-free subsequence; inside a code-development scope only the requested tag, with a pinned tag only that |
| Invocation.PlanExact | core/model_invoker.py:1091-1145 | the loop walks through exactly the first declarations that are left: inside a code-development scope only the routed model, or without a route the first one declared, and with a pin only the pinned one |
| Invocation.LoopIsExplained | core/model_invoker.py:1153-1301 | every loop ends as its trace explains: each call has the remaining budget of the last reading, at most the total deadline and positive, on a decision made for that model whose handles are held; each refusal names its decision and cause; a late result is overruled; only the last step ends a run |
| Invocation.CrashComesFromReading | core/runtime.py:3605-3616 | the loop crashes in re-admission exactly if it gets to a candidate other than the admitted one for which a reading fails |
| Invocation.BlockReasonsAreComplete | core/model_invoker.py:1108-1307 | the returned reasons hold those of the route and of every step, say why a run was stopped, and repeat none after the loop |
| Invocation.BlockReasonsAreExact | core/model_invoker.py:1150-1307 | after the loop a reason is returned exactly if the route gave it, some step calls for it or it stopped the run |
| Invocation.DedupedGrows | core/model_invoker.py:1307 | reasons are listed in the order in which they are first recorded |
| Invocation.TryCandidate | core/model_invoker.py:1153-1301 | one iteration records the specified step and leaves the specified account; a provider call is made with the compute decision then current and exactly the handles then held |
| Invocation.TryCandidates | core/model_invoker.py:1153-1308 | the loop computes the specified end of the run and leaves the specified account, stops exactly where the trace explains it, and returns the reasons in order, each once |
| Invocation.CalledFromPlan | core/model_invoker.py:1091-1145 | the tags handed to the provider are a duplicate-free subsequence of the deduplicated candidates with the routed one in front |
| Invocation.CalledExact | core/model_invoker.py:1218-1219 | a tag counts as called exactly when some step handed it to the provider |
| Invocation.AnswersAreTimely | core/model_invoker.py:1223-1244 | an answer is given exactly when the last step is an accepted attempt that passed the cancellation and deadline checks after the call |
| Invocation.LastAttemptDecides | core/model_invoker.py:1223-1301 | after an attempt the checks behind the call and the flags of the provider decide everything: the run goes on exactly after a plain failure and otherwise ends with exactly the outcome they name, an answer before lack of resources before cancellation before the deadline |
| Invocation.StopNamesItsCause | core/model_invoker.py:1153-1301 | a loop is stopped by the operator only if cancellation was read at the last candidate it looked at, for the deadline only if the clock or the provider said so there, and for resources only if the provider was limited there |
| Invocation.OnlyLastStepEnds | core/model_invoker.py:1290-1308 | every step but the last is a missing model, a refused admission or a plain failure; an exhausted run consists of such steps for every candidate |
| Invocation.InvokeModel | core/model_invoker.py:1090-1308 | the whole invocation ends without candidates, before any of them, or as the loop over the narrowed plan explains, with exactly the specified reasons and account; the ledger is faulted exactly when a reading crashed with handles already given back |
| AdmittedRequest.Settle | core/runtime.py:3688-3777 | exception path and final release: all handles are given back exactly once unless a failed reading left them given back already or the final reading fails with a lease held |
| AdmittedRequest.RunAdmitted | core/runtime.py:3663-3777 | lease conservation over the whole request, the retry without governance keywords included: both invocations are sound, and every acquired handle is given back exactly once if and only if what the request meets neither crashes re-admission after handles were given back nor fails the final reading with a lease held |
| AdmittedRequest.InvocationCrashesWhen | core/runtime.py:3605-3616 | an invocation crashes re-admission exactly if its loop begins and gets to a failing reading |
| AdmittedRequest.WorkingReadingsBalance | core/runtime.py:3663-3777 | a request whose readings all work balances the ledger, whatever else happens |
| AdmittedRequest.ReadingAfterFailureUnbalances | core/runtime.py:3605-3616 | a request with two models whose second reading fails after a plain failure gives its lease back twice |
| AdmittedRequest.FailedFinalReadingKeepsLease | core/runtime.py:3745-3749 | a request whose model answers and whose final reading fails never gives its lease back |
| StreamAssembly.ReadStream | core/model_invoker.py:770-912 | loop, checks and exception branches compute the specified reply: faults in line order, relabelled by what the last control check sees |
| StreamAssembly.ReadLines | core/model_invoker.py:775-811 | the loop joins the contents up to the done line or raises the first fault in line order |
| StreamAssembly.Handle | core/model_invoker.py:875-912 | the exception branches report a fault under the reason on record after their own check |
| StreamAssembly.CutOffMeans | core/model_invoker.py:875-912 | an operator's stop seen by the last check outranks whatever went wrong; a resource cut-off carries no other flag and was asked for; a cancelled exchange was cancelled |
| StreamAssembly.ExchangeFaultExact | core/model_invoker.py:775-815 | what ends an exchange: the first line that is not in order, else the check behind the loop, else a stream without a done line, else the last check |
| StreamAssembly.ReportedExact | core/model_invoker.py:875-912 | which flags an exception branch reports, for every fault and whatever its own check sees |
| StreamAssembly.SuccessMeans | core/model_invoker.py:770-837 | success with a text exactly when a done line was read, every line up to the first one is in order, the contents are within the byte limit, and the text is their concatenation stripped and not empty |
| StreamAssembly.ContentAdds | core/model_invoker.py:790-807 | only items carry text, each its own content in the order of the lines |
| StreamAssembly.RechunkingIsInvisible | core/model_invoker.py:798-809 | cutting the same text into other chunks within the line limit gives the same reply, an exceeded limit included |
| StreamAssembly.Utf8SizeOfConcat | core/model_invoker.py:803-804 | the byte count is additive over chunks |
| StreamAssembly.CharBytesIsLeast | core/model_invoker.py:803-804 | a character counts the fewest bytes whose payload holds its code point (section 3 of RFC 3629) |
| Ids.LayoutIsSum | app/ids.py:39-45 | the fields joined by or are the positional sum: they do not overlap |
| Ids.Decodes | app/ids.py:39-45 | every identifier decodes to version 7, variant 0b10 and the stored counter, and to the stored millisecond exactly when it fits in 48 bits (section 5.7 of RFC 9562) |
| Ids.OrderIsLexicographic | app/ids.py:39-46 | identifiers compare as their masked milliseconds, then counters, then random tails |
| Ids.OrderExact | app/ids.py:24-45 | whether the next identifier sorts above the last one, for every state and reading: after a fresh reading by masked millisecond, seed and tail; otherwise always, except when the counter wraps in the last millisecond of a 48-bit epoch |
| Ids.OrderWithinEpoch | app/ids.py:24-45 | for a clock that does not leap a whole epoch at once, successive identifiers are in order exactly when both milliseconds lie in the same 48-bit epoch |
| Ids.RunIsOrdered | app/ids.py:25-35 | the generator's clock advances by at least one tick per call under any clock readings |
| Ids.StrictlyIncreasing | app/ids.py:24-46 | over any run, identifiers are strictly increasing while the issued milliseconds fit in 48 bits (section 6.2 of RFC 9562) |
| Ids.ClockBeforeEpochBreaksOrder | app/ids.py:12-46 | a first reading before 1970 issues an identifier that sorts above the next one |
| Ids.ExactDrift | app/ids.py:30-35 | after n stale readings the generator has advanced exactly n ticks of 1/4096 ms, at most (n + 4095) div 4096 ms ahead |
| Ids.AheadOfLargestReading | app/ids.py:24-35 | over any n calls the generator's millisecond is not below any reading and ahead of the largest one, or of its start, by at most (n + 4095) div 4096 |
| Ids.Generator.Uuid7 | app/ids.py:17-46 | the method updates the two globals as specified and returns the identifier of the new state |
| Ids.MillisecondHoldsReading | app/ids.py:24 | a reading in nanoseconds lies within the millisecond it is cut to |
| Scalars.IntRoundTrip | core/repo_context_gatherer.py:284-287 | decimal notation is read back up to the interpreter's limit on digits and no further |
| Scalars.ParseIntExact | core/repo_context_gatherer.py:284-287 | a numeral is read by its digits, single underscores between them not counting, negated by a minus sign, and refused above the limit on digits |
| Scalars.ParseIntReads | core/repo_context_gatherer.py:284-287 | nothing but a numeral with or without a sign is read as a number |
| Scalars.ScalarRoundTrip | core/repo_context_gatherer.py:265-287 | every rendered scalar is read back whatever blanks surround it, exactly when its digits are within that limit |
| Text.LowerExact | core/repo_context_gatherer.py:276-282 | every capital is lowered to its letter, and nothing else changes |
| Text.IsSpaceExact | core/repo_context_gatherer.py:266 | whitespace is exactly the 29 characters that strip removes |
| ApprovedRepos.ParseSimpleYaml | core/repo_context_gatherer.py:295-367 | the line loop computes the fold of the line rules, stopping at the first error |
| ApprovedRepos.IgnoredLineIsInvisible | core/repo_context_gatherer.py:307-309 | a blank line or comment anywhere changes nothing |
| ApprovedRepos.IsBreakExact | core/repo_context_gatherer.py:307 | lines are cut at exactly the ten characters at which splitlines cuts |
| ApprovedRepos.StrayLineIsInvisible | core/repo_context_gatherer.py:314-365 | a list item without a list to go to changes nothing, and neither does a line at an indentation that its section does not use |
| ApprovedRepos.RaisesExactly | core/repo_context_gatherer.py:311-365 | a line raises exactly when it needs a colon and has none, or is a list item below a key without value in inspection_defaults; every other line keeps the parser's invariant |
| ApprovedRepos.NoTableIsMissing | core/repo_context_gatherer.py:295-367 | no text makes the parser look up a table that is not there |
| ApprovedReposRoundTrip.RoundTrip | core/repo_context_gatherer.py:295-367 | parsing the canonical rendering of any configuration of the documented shape returns that configuration |
| ApprovedReposRoundTrip.SettingTextReads | core/repo_context_gatherer.py:290-292 | a rendered key and value line splits into that key and that value |
| ApprovedReposRoundTrip.SplitHolds | core/repo_context_gatherer.py:307 | cutting a text of newline-ended lines gives the lines back |
| ApprovedReposRoundTrip.ListUnderDefaultsRaises | core/repo_context_gatherer.py:314-347 | the first item of a list below inspection_defaults raises, whatever the key, the item and its indentation |
| SafeTree.BelowExact | core/repo_context_gatherer.py:612-643 | the unlimited walk lists exactly the paths whose every step is listed, not skipped and within the depth |
| SafeTree.ListedExactly | core/repo_context_gatherer.py:551-643 | the unlimited walk lists exactly the paths through listed directories within the depth, with no skipped or secret name on them, to a directory or to a file that is not skipped |
| SafeTree.BelowOrdered | core/repo_context_gatherer.py:612-643 | it lists them depth first: above before below, earlier names first |
| SafeTree.EntriesAreSafe | core/repo_context_gatherer.py:551-573 | every listed entry is within the depth, no name on its path is that of a skipped directory or secret, and a file is not one that is skipped |
| SafeTree.EntriesInOrder | core/repo_context_gatherer.py:612-643 | no entry is listed twice, and each comes after the directory it lies in |
| SafeTree.Walker.Walk | core/repo_context_gatherer.py:612-643 | one call appends exactly what fits of the directory's preorder, warns exactly as stated below, and terminates although links may form cycles |
| SafeTree.Walker.WalkChildren | core/repo_context_gatherer.py:622-643 | the loop over the children, with the skipped names accounted for unless the list is full |
| SafeTree.WalkSafeTree | core/repo_context_gatherer.py:601-647 | the result is exactly the first max_entries entries of the unlimited walk; the limit warning is given exactly when something left out does not lie under the last entry; below the limit every inspected name is listed or skipped |
| SafeTree.CutInsideLastEntryIsSilent | core/repo_context_gatherer.py:612-643 | with one directory holding one file and a limit of one, the file is left out and no limit warning is given |
| TableSummary.ValidateHeader | core/data_executor.py:133-190 | a header passes exactly when it is not empty, has no blank and no repeated name; the reported positions and names are exactly the offending ones |
| TableSummary.FindDuplicates | core/data_executor.py:168-175 | the duplicate list holds each repeated name once |
| TableSummary.MissingExact | core/data_executor.py:31-100 | a cell is missing exactly when its stripped and lower-cased text is one of the seven tokens |
| TableSummary.Truncated | core/data_executor.py:119-124 | a preview cell has at most 160 characters: a short cell is kept, a long one keeps its first 159 without the blanks at their end, then an ellipsis |
| TableSummary.PreviewRowExact | core/data_executor.py:345-353 | a preview row has exactly the columns of the header, each with its cell cut to its length |
| TableSummary.CellsAreConserved | core/data_executor.py:355-368 | per column, missing plus numeric plus text cells are the rows |
| TableSummary.CountersDecide | core/data_executor.py:371-375 | the counters identify exactly the columns in which some cell is present and every present cell is a number |
| TableSummary.ColumnsArePartitioned | core/data_executor.py:371-380 | numeric and text columns divide the header between them |
| TableSummary.MeanIsBetween | core/data_executor.py:382-394 | minimum and maximum occur and bound every value, the mean lies between them, and times the count it is the sum of the values |
| TableSummary.SumAddsUp | core/data_executor.py:393 | the sum of no values is zero, of one the value, and sums add up |
| TableSummary.AddRow | core/data_executor.py:355-368 | one row advances every column's counters by one row of the column-wise specification |
| TableSummary.ReadRows | core/data_executor.py:309-368 | the pass takes all rows within the limit, else exactly one row more than the limit |
| TableSummary.Summarize | core/data_executor.py:279-410 | the one-pass summary equals the column-wise specification on the padded and truncated table, preview and the ordered warnings included, or names the header problem or the exceeded limit |
| TableSummary.SummarizeTableRows | core/data_executor.py:279-410 | with the source's missing-value tokens: a summary is given exactly for a valid header and rows within the limit, and a column is numeric exactly when some cell is no such token and every such cell is a number |
| TableSummary.RowWarningsMean | core/data_executor.py:329-339 | shorter and longer rows are warned of exactly when they occur, once each, the kind that occurs first first |
| ModelSelector.CooldownIsBounded | core/model_routing.py:45-94 | a record never starts a cooldown exactly if it shows at most one failure, in either of its forms; a dated cooldown and no other ends, for good and an hour after its date; a date in the future does not defeat the guard |
| ModelSelector.PreferredComeFirst | core/model_routing.py:21-25 | the list of preferred tags displaces the single one, and both come before the fallbacks |
| ModelSelector.KeysAreOrdered | core/model_routing.py:131-147 | the efficiency order is strict, transitive and total on different tags |
| ModelSelector.KeysTellEfficiency | core/model_routing.py:131-147 | comparing keys tells which tag is the more efficient: by size and then whole milliseconds under resource, by latency and then size under latency, what is not known last, the configured order between equals |
| ModelSelector.TruncateDropsFraction | core/model_routing.py:138 | a latency in whole milliseconds is the latency without its fraction |
| ModelSelector.PoolKeepsLimits | core/model_routing.py:111-128 | the pool holds exactly the candidates that may run (the installed ones, or all if none is) and are within the memory ceiling, or all that may run if none of them is |
| ModelSelector.PoolInOrder | core/model_routing.py:111-128 | the pool keeps the configured order |
| ModelSelector.MostEfficient | core/model_routing.py:131-149 | the selection by key picks the one tag of the pool that is more efficient than every other |
| ModelSelector.Recover | core/model_routing.py:160-184 | a choice that is cooling down is replaced by the first healthy tag of the pool, if there is one |
| ModelSelector.Select | core/model_routing.py:97-190 | the choice is in the pool and cooling down only if the whole pool is; first healthy under quality order, the most efficient under latency and resource unless that one is cooling down; the reasons are given exactly when the ceiling is unmet and when the favoured tag was replaced |
| ModelSelector.EligibleAgain | core/model_routing.py:51-57 | no failure exiles a model: once its last outcome is more than an hour old, the model the preference favours is chosen again, whatever its record |
| ModelSelector.FallbackIsNotTheBest | core/model_routing.py:160-184 | with the smallest of three models cooling down, the next in configured order is chosen although the third is smaller and healthy |

## Left out

- OwnedProvider: the SIGSTOP and SIGCONT duty cycle of the watcher, model staging, listener ownership, log preservation and temporary directories; the scan of the process table is an observation that contains every process alive when it ends.
- Invocation: which exceptions are keyword rejections is an input; a failed reading is taken to raise something else.
- Invocation: response text, latency, notes, model registry records and the choice of the reported error string.
- Admission: the governor, the compute ledger and the out-of-memory records are environment; a handle stands for a lease or a reservation identifier.
- Candidates.AppendSegment: entry normalisation before it; lists of tags and models arrive stripped.
- StreamAssembly: the request without streaming, HTTP status errors, errors before the first line, and contents with lone surrogates, which no Dafny character is.
- Dimensions.Covariance: the scale factor of a unit; the checker compares dimensionalities only, so the theorem is about dimensions as exponent vectors over a fixed set of base units.
- WorkflowCheck.ValidateWorkflow: schema decoding is assumed done, and the pass with the unit registry after line 331 is represented by `Dimensions` alone; a source under a linear program, which the registry allows to none, has an empty list as its value.
- NumericProvenance.CheckProvenance: the extraction of numbers and assumptions from the message text; both arrive as sets.
- LinearContract: floating-point rounding of sums, and non-finite solutions.
- Scalars: digits outside ASCII, which int() also accepts.
- ApprovedReposRoundTrip.RoundTrip: keys that read as syntax (with a colon, a line break, surrounding blanks, a leading number sign or a leading item dash) and strings with line breaks have no rendering in this format.
- SafeTree: the sort of a directory's names and the checks of a single name, suffix and size are parameters; directory names are taken to be distinct.
- TableSummary: reading CSV and XLSX files, file boundaries, and the wording of errors and warnings.
- ModelSelector: role and locality policy before the selector, timestamp parsing, and rounding of very large sizes to floats.
- Planner, router and responder heuristics, journals, benchmarks, packaging, the web application and the forge's numerical adapters.
