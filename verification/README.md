# Verified models of the BSS, wire-protocol and operator back-end cores

These Dafny modules model the parts of the repository where correctness spans several functions, a whole
protocol run or a whole database history, and prove what those parts promise. `dafny verify dfyconfig.toml`
checks everything. Code that changes state in place is modelled by classes and loops proved against
specification functions; concurrent code is modelled as step machines over every interleaving, with failures and
crashes between any two commits, and the class methods are tied to those machines.

* **Prepaid balance** (`BalanceModel`, `BalanceRuns`, `BalanceLedger`, `BalanceStore`): top-ups, adjustments and
  reserves as database transactions with row locks, rollbacks and event ids. READ COMMITTED is assumed: a
  conditional update that matches a row locks it until the transaction ends, one that matches none is judged on the
  committed row. That second case is why replaying refused requests in commit order may tell another story;
  the exact condition is proved, and strict serialisability holds in any case.
* **Provisioning saga** (`SagaModel`, `SagaRuns`, `SagaSafety`, `SagaRecovery`, `SagaOverlap`, `SagaSequences`,
  `SagaCuts`, `SagaCollisions`, `SagaPromises`, `ProvisioningStore`): an order over two databases and the UDR node,
  with separate commits, lost replies, crashes and resends; requests that the charging schema or the UDR refuses;
  orders whose ids collide; and requests for one order that overlap. The schema refuses a segment or charging mode
  outside its list, an offering the catalog does not know, and a SUPI or number that another subscriber holds. The
  first is a CHECK constraint, which PostgreSQL judges before it looks for the conflicting key; the others are judged
  for rows that are not there yet.
* **Catalog shredding** (`CatalogRows`, `CatalogTrees`, `CatalogModel`, `CatalogOffering`, `CatalogPrice`,
  `CatalogSpecification`, `CatalogStore`, `CatalogRoundTrip`, `CatalogDatabase`): TMF620 trees split into rows
  with surrogate keys and ordinals and rebuilt by set-based queries, in whatever order the database returns rows
  that its ORDER BY does not tell apart.
* **Wire codecs** (`Bytes`, `DiameterAvp`, `DiameterHeader`, `EapAkaPrime`, `Kdf`, `Resynchronisation`): Diameter
  headers and AVPs, EAP-AKA' packets, the key-derivation input string and the AUTS token. HMAC and AES are
  arbitrary functions.
* **Exact money** (`Digits`, `MoneyExact`): the decimal parser and printer with its 64-bit bound.
* **Operator back end** (`ApprovalModel`, `ApprovalRuns`, `ApprovalSafety`, `ApprovalProgress`, `SessionModel`, `SessionRuns`,
  `IamStore`, `ScrubText`, `ScrubComplete`, `ScrubTree`, `Redaction`, `ConfigMask`): four-eyes approvals,
  configuration version numbering, sign-in and sessions, scrubbing of secrets, field rules, and credential masking.
* **Settlement and billing** (`TapBatch`, `BillRun`).
* **Generators** (`RefInline`, `AvpDictionary`, `TypeClosure`).

Where the code does not do what one might expect of it, the model keeps the code and proves exactly when the
expectation holds:

* Balances stay non-negative in every interleaving exactly when no top-up that can commit is negative; on a given
  bucket a top-up must not take more than remains.
* A resend that meets no failure finishes an order exactly when its rows are in or the charging database takes them,
  and its documents are delivered or the UDR takes them. Of two orders for one number, which nothing but these two
  requests touches, no run ever provisions both.
* Over all runs of a set of requests, an order that one of them can deliver promises a request its rows exactly when
  no three requests for one subscriber, taken by the charging database one after the other and one of them of the
  order, leave any of these rows out. Where no request needs another one's number or offering to be taken, that is:
  when every request of the order that can be written is for the same subscriber and has a contact, a number and an
  offering wherever that one does. It promises the documents exactly when all deliverable requests under the id or for
  the subscriber stand for the same ones, as far as their orders can be provisioned beside it. Order ids meet by equal
  idempotency keys, by a second order of a subscriber without a key, and by a key that spells another subscriber's
  digits; the second request is then answered as completed without its own rows, if the database took the first.
* Without the rule that requests for one order do not overlap, the slower of two requests can record a failure over
  the success of the faster one, and the completed order keeps a failed task. What was provisioned is never lost;
  finished tasks stay finished exactly when no process of the order stands between finding a task open and having
  recorded it.
* An approved request can still become EXECUTED or FAILED exactly when a handler past its decision remains; when that
  handler dies the request stays APPROVED for good.
* The scrubbing loops end on a string exactly when no pass finds a secret that is part of the replacement text. A
  secret can survive its own loop exactly when it can be rebuilt: behind some beginning of itself its rest reads like
  the replacement, so it must hold a `[`. Other passes bring back exactly the texts that can lie across the
  replacement, or that hold a `*`.
* The key derivation input is unambiguous exactly for parameters under 65536 octets, and relay service codes count
  modulo 2^24.
* A session opens on the terminal of the callback; the terminal the sign-in was begun on is recorded and not compared.

Price terms are kept as JSON, so the dates inside them are not canonicalised although dates in columns are. Inlining
drops `description`, `example` and `examples` from every dictionary, also where they are property names.

Amounts are integers in the smallest unit (reals in the catalog, where rounding is not the point). Whether a
date-time parses, whether an account exists and how the JSON library orders an object's members are parameters.
The 64-bit minimum of a money amount is excluded, because negating it is undefined in the original.

## Model

| member | source | states |
|---|---|---|
| BalanceRuns.Serialisable | bss/balance-management/src/store.cpp:318-572 | every interleaving of transactions, with rollbacks, ends with the buckets and statuses of running the committed ones one at a time in an order in which each has its place |
| BalanceRuns.RealTimeOrder | bss/balance-management/src/store.cpp:318-572 | that order respects real time: a transaction that ended before another began comes first in it |
| BalanceRuns.RunKeepsInv | bss/balance-management/src/store.cpp:318-572 | in every reachable state row locks, pending writes, event rows and the serial order agree |
| BalanceLedger.Ledger | bss/balance-management/src/store.cpp:318-572 | in every reachable state remaining = opening + top-ups + completed adjustments - completed reserves, and reserved = opening + completed reserves |
| BalanceModel.KeepsFloorsExactly | bss/balance-management/src/store.cpp:318-572 | a request keeps every non-negative table non-negative exactly when it is no negative top-up |
| BalanceLedger.CommitFloor | bss/balance-management/src/store.cpp:318-572 | a commit on given buckets leaves them non-negative exactly when a top-up takes no more than remains |
| BalanceLedger.NeverOverdrawnExactly | bss/balance-management/src/store.cpp:318-572 | no interleaving of a set of requests overdraws from any non-negative opening exactly when none of them is a negative top-up that can commit |
| BalanceLedger.EventIds | bss/balance-management/src/store.cpp:367-369 | event ids of one kind are never given twice, also across rollbacks |
| BalanceLedger.CommitOrderExact | bss/balance-management/src/store.cpp:447-490 | replaying the events in commit order gives the same buckets and statuses exactly when every failed event would still be refused where it committed |
| BalanceLedger.CommitOrderAgrees | bss/balance-management/src/store.cpp:447-535 | in particular whenever no other transaction commits room for a refused one between its statement and its commit |
| BalanceLedger.CommitOrderCanDisagree | bss/balance-management/src/store.cpp:447-490 | a run in which that condition fails |
| BalanceStore.BalanceStore.TopUp | bss/balance-management/src/store.cpp:318-412 | credits or creates a bucket and appends the event, or throws and leaves nothing but a used id |
| BalanceStore.BalanceStore.AdjustBy | bss/balance-management/src/store.cpp:439-489 | the conditional adjustment, its event and status, or an exception that leaves nothing |
| BalanceStore.BalanceStore.Hold | bss/balance-management/src/store.cpp:509-572 | the conditional reserve or refund, its event and status, or an exception that leaves nothing |
| BalanceStore.SoloTransactionIsCall | bss/balance-management/src/store.cpp:318-572 | each of those calls is what the step machine does when its transaction runs alone |
| BalanceModel.PutNonNegative | bss/balance-management/src/store.cpp:449-535 | a conditional update that matches keeps both amounts non-negative, and a top-up does exactly when it takes no more than remains |
| SagaModel.KeyInjective | bss/provisioning/src/provisioning_store.cpp:16-22 | on valid SUPIs the digits key tells subscribers apart |
| SagaModel.RowsApart | bss/provisioning/src/provisioning_store.cpp:32-83 | requests for different subscribers never share a row of the SID chain |
| SagaModel.TaskIdsDistinct | bss/provisioning/src/provisioning_store.cpp:133-134 | the task ids of nodes and orders are distinct |
| SagaRuns.Reachable | bss/provisioning/src/provisioning_store.cpp:95-217 | the saga invariant holds in every state of every interleaving with failures, lost replies, crashes and resends |
| SagaSafety.GatedOrders | bss/provisioning/src/provisioning_store.cpp:172-208 | the UDR task is done only after the BSS task, and an order is completed, in its row or its history, only when both are |
| SagaSafety.CoversExactly | bss/provisioning/src/provisioning_store.cpp:32-83 | one request has every row another asks for exactly when it is for the same subscriber and has a contact, number and offering wherever the other does |
| SagaSafety.DoneMeansProvisioned | bss/provisioning/src/provisioning_store.cpp:32-83 | both tasks done means the full linked SID chain and the UDR documents of every request that all requests of the order cover, with exactly the requested contents when the SUPI had one request |
| SagaSafety.DoneForever | bss/provisioning/src/provisioning_store.cpp:85-208 | rows are never lost or overwritten and a finished order stays finished |
| SagaSafety.CreditedOnce | bss/provisioning/src/provisioning_store.cpp:72-79 | a bucket holds the amount of the one write that created it plus the moves since, however often the order is sent |
| SagaSafety.BalanceSteps | bss/provisioning/src/provisioning_store.cpp:72-79 | what every single step does to a subscriber's balance |
| SagaSafety.ResendWritesNothing | bss/provisioning/src/provisioning_store.cpp:163-196 | once both tasks are done no run of resends writes to the charging database or the UDR |
| SagaRecovery.CleanLeaves | bss/provisioning/src/provisioning_store.cpp:95-217 | what a request that meets no failure leaves of rows, documents, tasks and order state, from any tables |
| SagaRecovery.CleanResendExactly | bss/provisioning/src/provisioning_store.cpp:95-217 | from every reachable state one resend that meets no failure finishes the order exactly when its rows are in or the charging database takes them and its documents are delivered or the UDR takes them; finished, everything is provisioned, otherwise the order is left incomplete |
| SagaSequences.WritesInTurn | bss/provisioning/src/provisioning_store.cpp:32-83 | the rows, finished BSS tasks and documents of every run are those of inserting some sequence of its requests, each of which the charging database takes after the ones before it |
| SagaSequences.OverlapWritesInTurn | bss/provisioning/src/provisioning_store.cpp:32-83 | so it is when requests for one order overlap |
| SagaSequences.HeldOnceInTurn | deploy/db/charging/20-subscriber.sql:56-69 | such a sequence gives each SUPI and number one holder, and none that another service holds |
| SagaSequences.NumbersUnique | deploy/db/charging/20-subscriber.sql:69-69 | so in every reachable state, overlapping requests included, no two subscribers hold one number |
| SagaCuts.AdmitsIs | deploy/db/charging/20-subscriber.sql:25-69 | what the schema asks of a request, in terms of the requests written before it |
| SagaCuts.PickInTurn | bss/provisioning/src/provisioning_store.cpp:32-83 | a part of a sequence that keeps the first number and the first offering of each subscriber it keeps is itself taken in turn |
| SagaCuts.CutToOne | bss/provisioning/src/provisioning_store.cpp:32-83 | so any one request of a sequence is taken after at most two others, of its own subscriber |
| SagaCollisions.OrderIdsMeet | bss/provisioning/src/provisioning_store.cpp:95-106 | when two requests share an order id, in terms of their keys and SUPIs |
| SagaCollisions.SharedOrderIdExact | bss/provisioning/src/provisioning_store.cpp:104-196 | two requests under one order id, one after the other: when the database takes the first, the order is completed exactly when one of them is deliverable, and the second's rows and documents exist exactly as far as the first stands for the same; when it does not, all is up to the second |
| SagaCollisions.SameDocuments | bss/provisioning/src/udr_adapter.cpp:55-122 | two requests stand for the same documents exactly when subscriber, number, SIM keys, starting sequence number and network profile agree |
| SagaCollisions.SequenceIsRun | bss/provisioning/src/provisioning_store.cpp:163-170 | every sequence that the charging database takes in turn is what some run writes |
| SagaPromises.RowsGuaranteedExactly | bss/provisioning/src/provisioning_store.cpp:95-217 | over all runs of a set of requests, completed implies a request's rows exactly when no three requests of the set for one subscriber, taken in turn with one of the order among them, leave a row out, or none of the set can deliver the order |
| SagaPromises.PlainRows | bss/provisioning/src/provisioning_store.cpp:95-217 | when every request of the set is taken by an empty database or never, that is when each one of the order that is taken covers the request |
| SagaPromises.DocumentsGuaranteedExactly | bss/provisioning/src/provisioning_store.cpp:95-217 | and its documents exactly when every deliverable request of the set, of the order or for the subscriber, whose order at most six requests can provision beside this one stands for the same ones, or none can deliver the order |
| SagaPromises.OneNumberOneOrder | deploy/db/charging/20-subscriber.sql:69-69 | of two orders for one number that no other requests touch, no run provisions both |
| SagaPromises.SecondNeverCompletes | deploy/db/charging/20-subscriber.sql:69-69 | once the first is completed the second never is, however often it is sent |
| SagaPromises.SecondRefused | bss/provisioning/src/provisioning_store.cpp:163-208 | the run of two such requests without any failure: the second is left incomplete and writes no row |
| SagaOverlap.OverlapKeeps | bss/provisioning/src/provisioning_store.cpp:85-217 | with overlapping requests nothing provisioned is lost, and an order ever closed as completed has the rows of one of its requests and the documents of one |
| SagaOverlap.OverlapUndoes | bss/provisioning/src/provisioning_store.cpp:85-93 | a request that the database and the UDR take, overlapped by any valid one of its order: a run from the empty system leaves the order completed with a failed task |
| SagaOverlap.StayDoneExactly | bss/provisioning/src/provisioning_store.cpp:85-208 | from any state finished tasks stay finished in every run exactly when no process of the order is between finding a task open and having recorded it |
| SagaOverlap.GatedIsSafe | bss/provisioning/src/provisioning_store.cpp:95-217 | where requests for one order do not overlap there is no such process |
| ProvisioningStore.CollectKey | bss/provisioning/src/provisioning_store.cpp:16-22 | the digit loop computes the key |
| ProvisioningStore.ProvisioningStore.ProvisionBss | bss/provisioning/src/provisioning_store.cpp:32-83 | the whole chain is inserted where absent, existing rows winning, or nothing at all; it is refused exactly when a constraint of the schema is not met by the rows before the call |
| ProvisioningStore.ProvisioningStore.RecordTask | bss/provisioning/src/provisioning_store.cpp:85-93 | status and attempt count of the task, and nothing else |
| ProvisioningStore.ProvisioningStore.CreateCustomerOrder | bss/provisioning/src/provisioning_store.cpp:95-217 | the databases and node after a call under any pattern of faults, and the answer; completed is answered only for a completed order |
| ProvisioningStore.AttemptIsRun | bss/provisioning/src/provisioning_store.cpp:95-217 | every such call is a run of the step machine that leaves nothing in flight |
| ProvisioningStore.CleanAttempt | bss/provisioning/src/provisioning_store.cpp:95-217 | a call that meets no fault leaves exactly what such a request leaves in the step machine |
| CatalogRows.AnyAnswer | bss/product-catalog/src/store.cpp:277-290 | any order of rows that ORDER BY owner, ordinal allows gives each owner its own list in posted order |
| CatalogRows.InsertList | bss/product-catalog/src/store.cpp:797-860 | inserting a list gives its owner that list and no other owner anything |
| CatalogRows.Collect | bss/product-catalog/src/store.cpp:277-290 | the row loop hands every row to its owner in order |
| CatalogTrees.InsertTree | bss/product-catalog/src/store.cpp:187-223 | a two-level list inserted under surrogate keys is its owner's list and leaves the others alone |
| CatalogTrees.AnyTreeAnswer | bss/product-catalog/src/store.cpp:227-275 | the same for two-level lists read by two queries |
| CatalogTrees.CollectNodes | bss/product-catalog/src/store.cpp:227-275 | grouping the values and attaching them to their uses rebuilds the two-level lists |
| CatalogModel.SurrogateKeyInjective | bss/product-catalog/src/store.cpp:196-196 | surrogate keys name owner kind, owner, list and position without ambiguity |
| CatalogOffering.ListsRoundTrip | bss/product-catalog/src/store.cpp:797-872 | the eight child lists of an offering come back in canonical form and posted order; others unchanged |
| CatalogPrice.ListsRoundTrip | bss/product-catalog/src/store.cpp:967-1006 | POP and BUNDLED_POP relationships, which share one ordinal, come back apart and in order, and so do the taxes |
| CatalogSpecification.ListsRoundTrip | bss/product-catalog/src/store.cpp:1114-1178 | RESOURCE and SERVICE candidates, which share one ordinal, come back apart and in order, and so do the other lists |
| CatalogRoundTrip.OfferingRoundTrip | bss/product-catalog/src/store.cpp:741-894 | an offering is accepted exactly when its name, dates and references allow; then get gives its canonical form with id and href and nothing else changes; refused, nothing changes |
| CatalogRoundTrip.PriceRoundTrip | bss/product-catalog/src/store.cpp:926-1028 | the same for prices |
| CatalogRoundTrip.SpecRoundTrip | bss/product-catalog/src/store.cpp:1060-1199 | the same for specifications |
| CatalogRoundTrip.AcceptedIsRetrievable | bss/product-catalog/src/store.cpp:14-22 | over any history of posts everything accepted at any point can be read back at the end |
| CatalogDatabase.InsertDistinct | bss/product-catalog/src/store.cpp:797-830 | a list with a repeated reference is refused, any other is inserted in order |
| CatalogDatabase.Catalog.CreateOffering | bss/product-catalog/src/store.cpp:741-884 | the transaction writes the offering or leaves only a used id |
| CatalogDatabase.Catalog.CreatePrice | bss/product-catalog/src/store.cpp:926-1018 | the same for a price |
| CatalogDatabase.Catalog.CreateSpec | bss/product-catalog/src/store.cpp:1060-1189 | the same for a specification |
| CatalogDatabase.Catalog.LoadOfferings | bss/product-catalog/src/store.cpp:293-472 | the fixed set of queries yields exactly the selected stored offerings |
| CatalogDatabase.Catalog.LoadPrices | bss/product-catalog/src/store.cpp:476-573 | the same for prices |
| CatalogDatabase.Catalog.LoadSpecs | bss/product-catalog/src/store.cpp:577-713 | the same for specifications |
| CatalogDatabase.Catalog.ListOfferings | bss/product-catalog/src/store.cpp:886-900 | list gives every stored offering once, ordered by id, as get gives it |
| CatalogDatabase.Catalog.ListPrices | bss/product-catalog/src/store.cpp:1020-1034 | the same for prices |
| CatalogDatabase.Catalog.ListSpecs | bss/product-catalog/src/store.cpp:1191-1205 | the same for specifications |
| DiameterAvp.EncodeAvp | libs/diameter-core/src/avp.cpp:39-56 | appends header, optional vendor id, data and zero padding to a word |
| DiameterAvp.DecodeAvps | libs/diameter-core/src/avp.cpp:126-161 | the offset loop ends in bounds and decodes the list or refuses it |
| DiameterAvp.DecodeExact | libs/diameter-core/src/avp.cpp:126-161 | bytes decode to a list exactly when every AVP fits and the bytes are their encodings up to pad contents and missing final padding |
| DiameterAvp.RoundTrip | libs/diameter-core/src/avp.cpp:39-56 | encoding then decoding gives the list exactly when every AVP fits its 24-bit length and has no vendor id without the V flag |
| DiameterAvp.ReEncode | libs/diameter-core/src/avp.cpp:126-161 | re-encoding an accepted byte string gives it back up to padding |
| DiameterHeader.EncodeHeader | libs/diameter-core/src/header.cpp:37-52 | the twenty octets with version and 24-bit length |
| DiameterHeader.DecodeHeader | libs/diameter-core/src/header.cpp:54-81 | what is read from an offset, or a refusal |
| DiameterHeader.HeaderExact | libs/diameter-core/src/header.cpp:37-81 | octets decode to a header and length exactly when they are laid out as that header and length |
| DiameterHeader.MessageRoundTrip | libs/diameter-core/src/header.cpp:37-81 | a whole message, header and AVPs, decodes to what was encoded, wherever it stands in a buffer |
| EapAkaPrime.PrfPrime | libs/aka-crypto/src/eap_aka_prime.cpp:144-160 | the counter loop computes the requested length of PRF' blocks |
| EapAkaPrime.SameTruncation | libs/aka-crypto/src/eap_aka_prime.cpp:144-160 | a shorter output is a prefix of a longer one |
| EapAkaPrime.FindAttribute | libs/aka-crypto/src/eap_aka_prime.cpp:122-142 | the attribute scan ends in bounds on every byte string and finds the first attribute of the type |
| EapAkaPrime.FinalizeWithMac | libs/aka-crypto/src/eap_aka_prime.cpp:216-231 | the packet with length and MAC patched in place |
| EapAkaPrime.ParseChallengeRequest | libs/aka-crypto/src/eap_aka_prime.cpp:276-311 | the fields of a challenge request or a refusal |
| EapAkaPrime.CheckMac | libs/aka-crypto/src/eap_aka_prime.cpp:341-354 | the MAC of a received packet, computed with its MAC octets zeroed |
| EapAkaPrime.RequestRoundTrip | libs/aka-crypto/src/eap_aka_prime.cpp:233-311 | a built challenge request parses back exactly when the network name has at most 1016 octets; its MAC verifies and its length field is its size |
| EapAkaPrime.ResponseRoundTrip | libs/aka-crypto/src/eap_aka_prime.cpp:249-339 | the same for a challenge response and RES |
| Kdf.GenericKdf | libs/aka-crypto/src/kdf.cpp:53-75 | the loop builds FC and the length-suffixed parameters and feeds them to HMAC |
| Kdf.Unambiguous | libs/aka-crypto/src/kdf.cpp:30-75 | the input string determines FC and the parameter list, for any number of parameters under 65536 octets |
| Kdf.InjectiveExactly | libs/aka-crypto/src/kdf.cpp:30-75 | parameters under a bound are told apart exactly for bounds up to 65536 octets |
| Kdf.DerivationsCollideExactly | libs/aka-crypto/src/kdf.cpp:86-249 | two derivations feed HMAC the same key and string exactly when they are the same, up to relay service codes equal modulo 2^24 |
| Resynchronisation.VerifyAndDecodeAuts | libs/aka-crypto/src/milenage.cpp:147-161 | uncovers the sequence number and checks the code over it |
| Resynchronisation.AcceptsHonestOnly | libs/aka-crypto/src/milenage.cpp:123-161 | a token is accepted with a sequence number exactly when it is the token the card makes for that number |
| MoneyExact.FromDecimalString | libs/bss-sid/src/money_exact.cpp:17-74 | the scanning loops compute the value of the grammar or refuse |
| MoneyExact.SplitExact | libs/bss-sid/src/money_exact.cpp:17-56 | a text has at most one reading as a decimal and the scanner finds it exactly when there is one |
| MoneyExact.ParsePrint | libs/bss-sid/src/money_exact.cpp:87-101 | printing and parsing gives every 64-bit amount back |
| MoneyExact.PrintParse | libs/bss-sid/src/money_exact.cpp:17-101 | parsing fails exactly off the grammar or above 2^63 - 1, and what is accepted prints as the canonical text of its value |
| MoneyExact.CanonicalUnique | libs/bss-sid/src/money_exact.cpp:87-101 | there is one canonical text per value |
| ApprovalRuns.StepOk | gui/bff/src/app.cpp:451-488 | every step of every handler keeps the approval invariant and moves a request only forward |
| ApprovalSafety.FourEyes | gui/bff/src/iam.cpp:409-429 | in every interleaving a decision is by another than the maker and before expiry, the executor acts at most once and only after approval and its audit row, and EXECUTED means it acted |
| ApprovalSafety.DecidedOnce | gui/bff/src/iam.cpp:409-420 | a decision is final over the rest of every run |
| ApprovalSafety.VersionsExact | gui/bff/src/iam.cpp:449-468 | configuration versions of each network function are exactly 1 to n in commit order |
| ApprovalSafety.OrphanedForever | gui/bff/src/app.cpp:476-488 | a request whose handler died after the decision is never touched again |
| ApprovalProgress.Finishes | gui/bff/src/app.cpp:476-488 | from every state of the invariant a handler past the decision reaches EXECUTED or FAILED by steps that meet no fault, waiting for locks included |
| ApprovalProgress.FinishesExactly | gui/bff/src/app.cpp:471-488 | in every reachable state an approved request can still become EXECUTED or FAILED exactly when such a handler remains |
| ApprovalProgress.ApprovedForever | gui/bff/src/app.cpp:471-488 | a run from the empty system in which the handler dies after approving, and every run from there leaves the request APPROVED with nothing done |
| SessionRuns.AcceptedIsEntitled | gui/bff/src/iam.cpp:162-216 | a session is accepted only from its terminal, before its expiry, within the idle limit of its last use, and never after a refusal or an end |
| SessionRuns.WhatEnds | gui/bff/src/iam.cpp:124-226 | ending a session, refusing it and locking its user as dormant all end it |
| SessionRuns.EndedForever | gui/bff/src/iam.cpp:162-226 | a session that has ended for whatever reason is never accepted again and its row never changes |
| SessionRuns.DormantLockedOut | gui/bff/src/iam.cpp:124-134 | after a user is locked as dormant none of the user's sessions is accepted in any later run |
| SessionRuns.TerminalNotCompared | gui/bff/src/iam.cpp:70-160 | a sign-in begun on any terminal opens a session on the callback's terminal, which is accepted there |
| SessionRuns.OneSessionPerLogin | gui/bff/src/iam.cpp:84-102 | every begun sign-in yields at most one session |
| SessionRuns.ResolveExact | gui/bff/src/iam.cpp:162-216 | a presented session is accepted exactly when it is entitled, not ended and its user active; the SELECT and the UPDATE are one step |
| SessionRuns.OpenOk | gui/bff/src/iam.cpp:136-160 | opening a session from a callback keeps what is known of sign-ins and sessions |
| IamStore.IamStore.TakeLoginState | gui/bff/src/iam.cpp:84-102 | the state is gone whether or not it validates |
| IamStore.IamStore.ResolveSession | gui/bff/src/iam.cpp:162-216 | the verdict of the checks in their order and the row they leave, when nothing comes between its SELECT and its UPDATE |
| IamStore.IamStore.Decide | gui/bff/src/iam.cpp:409-420 | the conditional update and whether it matched |
| IamStore.IamStore.MarkExecuted | gui/bff/src/iam.cpp:422-429 | only an approved request is marked |
| IamStore.IamStore.AddConfigVersion | gui/bff/src/iam.cpp:449-468 | the new version is one above the highest |
| IamStore.IamStore.HandleDecision | gui/bff/src/app.cpp:451-488 | the handler's checks, decision, audit rows, execution and result |
| IamStore.SoloHandler | gui/bff/src/app.cpp:451-488 | the handler in one piece is what the step machine does when it runs alone |
| ScrubText.HaltsExactly | gui/bff/src/redact.cpp:42-47 | the loop for a secret ends on a string exactly when the secret does not occur or is not part of the replacement |
| ScrubText.ReplaceSecret | gui/bff/src/redact.cpp:42-47 | the find-and-replace loop, wherever it ends |
| ScrubComplete.CleanRemoves | gui/bff/src/redact.cpp:42-47 | no occurrence of a secret that cannot be rebuilt is left, overlapping ones included |
| ScrubComplete.RebuiltExactly | gui/bff/src/redact.cpp:42-47 | a secret survives its own loop on some string exactly when it can be rebuilt |
| ScrubComplete.NeverRebuilt | gui/bff/src/redact.cpp:42-47 | a secret without the first character of the replacement cannot be |
| ScrubComplete.CleanKeepsOut | gui/bff/src/redact.cpp:42-47 | removing a secret never brings back a text that cannot lie across the replacement |
| ScrubComplete.BroughtBackExactly | gui/bff/src/redact.cpp:42-47 | and every other text can be brought back by one |
| ScrubComplete.ReplaceIdentifier | gui/bff/src/redact.cpp:48-54 | the loop that masks an identifier in place |
| ScrubComplete.MaskedRemoves | gui/bff/src/redact.cpp:48-54 | no occurrence of an identifier without stars is left, overlapping ones included |
| ScrubComplete.StarsExactly | gui/bff/src/redact.cpp:48-54 | masking some identifier in some string brings back only texts with a star, and every such text that leaves a character unused |
| ScrubComplete.ShortSpares | gui/bff/src/redact.cpp:48-54 | every text of fewer than 55296 characters leaves one unused |
| ScrubTree.EndsExactly | gui/bff/src/redact.cpp:40-47 | the loops over all secrets end on a string exactly when no pass finds a secret that is part of the replacement |
| ScrubTree.ScrubString | gui/bff/src/redact.cpp:37-56 | the passes over one string, secrets first, wherever they end |
| ScrubTree.ScrubbedIsSpotless | gui/bff/src/redact.cpp:37-56 | after all passes the string holds no listed secret or identifier of those that can be removed for good |
| ScrubTree.SecretExactly | gui/bff/src/redact.cpp:37-56 | a listed secret is gone after every scrub, whatever else is listed, if it has no star and cannot lie across the replacement, and otherwise survives some scrub unless every character occurs in it |
| ScrubTree.IdentifierExactly | gui/bff/src/redact.cpp:48-54 | a listed identifier is gone after every scrub if it has five characters or more and no star, and otherwise survives some scrub unless every character occurs in it |
| ScrubTree.ScrubTwice | gui/bff/src/redact.cpp:37-56 | strings without anything listed are untouched, and scrubbing twice is scrubbing once |
| ScrubTree.ScrubNode | gui/bff/src/redact.cpp:37-60 | the walk over a document scrubs every string value, wherever the loops end on all of them |
| ScrubTree.ScrubbedTreeIsSpotless | gui/bff/src/redact.cpp:37-60 | no string value of the scrubbed document holds a listed secret or identifier |
| ScrubTree.LocatedAfter | gui/bff/src/redact.cpp:20-35 | a change at a path changes the values the path leads to, through arrays |
| ScrubTree.AtPathExactly | gui/bff/src/redact.cpp:20-35 | the result is the one document that has the changed values there and is the same everywhere else |
| Redaction.StripSecrets | gui/bff/src/redact.cpp:69-75 | the loop over the rules that hides every secret field |
| Redaction.NothingStored | gui/bff/src/redact.cpp:69-75 | whatever the rules and however their paths cross, every value left at a secret path is the replacement text |
| Redaction.SecretValues | gui/bff/src/redact.cpp:77-94 | the loop that collects the secrets of a document, each also in lower and in upper case |
| Redaction.MaskPii | gui/bff/src/redact.cpp:96-109 | the loop over the rules and then the scrub of the whole document |
| Redaction.LittleShown | gui/bff/src/redact.cpp:98-106 | after the rules, at most the last four characters show at any personal or secret path |
| Redaction.NeverEchoed | gui/bff/src/redact.cpp:77-109 | an answer masked with the secrets of a request holds no secret found at a secret path of the request, in any of the three forms, in any string value, of those that can be removed for good |
| Redaction.KeysNeverShown | gui/bff/src/redact.cpp:77-109 | when the secrets are 32-digit SIM keys, masking any answer ends and no key of the request is in it |
| ConfigMask.ChangeCredentials | gui/bff/src/config_mgmt.cpp:78-89 | the loop over schema properties changes each credential member, at any depth |
| ConfigMask.UnmaskMask | gui/bff/src/config_mgmt.cpp:114-126 | masking and unmasking gives the document back for every schema and document |
| ConfigMask.MaskTwice | gui/bff/src/config_mgmt.cpp:114-119 | masking is idempotent |
| ConfigMask.MaskHidesExactly | gui/bff/src/config_mgmt.cpp:78-119 | two documents mask alike exactly when they differ only in the text of credentials |
| ConfigMask.ValidateMasked | gui/bff/src/config_mgmt.cpp:108-119 | a masked document gets exactly the errors of the document |
| ConfigMask.CheckExact | gui/bff/src/config_mgmt.cpp:46-76 | validation reports nothing exactly when the document conforms to the schema |
| ConfigMask.PushErrors | gui/bff/src/config_mgmt.cpp:46-76 | the recursive walk pushes those messages in order |
| RefInline.FewerPlaces | gui/schema-gen/derive_nf_config_schemas.py:154-163 | every reference followed leaves one place fewer off the stack, which is why the walk ends on every set of documents, cyclic ones included |
| RefInline.KeysKept | gui/schema-gen/derive_nf_config_schemas.py:164-165 | annotations go by name alone: of a dictionary exactly the other members stay |
| RefInline.InlineSelfContained | gui/schema-gen/derive_nf_config_schemas.py:137-170 | the result holds no reference and no annotation |
| RefInline.WalkIsPlain | gui/schema-gen/derive_nf_config_schemas.py:151-167 | on an acyclic reference graph the walk is plain full inlining |
| RefInline.InlineIsPlain | gui/schema-gen/derive_nf_config_schemas.py:137-170 | and so is the inlining of a whole schema |
| RefInline.InlineRefusedExactly | gui/schema-gen/derive_nf_config_schemas.py:151-170 | inlining fails exactly when following references from the schema, none twice, leads to a dead one |
| AvpDictionary.BuildTable | tools/avp-dictionary/extract_avp_names.py:142-221 | a table is emitted exactly when no summary table lists several codes for a name and every claimed code keeps a name; it is sorted and lists exactly the kept names |
| AvpDictionary.NamesUnique | tools/avp-dictionary/extract_avp_names.py:174-194 | no name of a vendor occurs twice |
| AvpDictionary.TableNamesKept | tools/avp-dictionary/extract_avp_names.py:142-194 | every summary-table name is emitted with its table code |
| AvpDictionary.SortRows | tools/avp-dictionary/extract_avp_names.py:268-269 | rows strictly sorted by vendor and code |
| AvpDictionary.LowerBound | tools/avp-dictionary/extract_avp_names.py:325-330 | the halving search for the first row not below a key |
| AvpDictionary.AvpName | tools/avp-dictionary/extract_avp_names.py:324-335 | the lookup gives the name exactly when the code is in the table |
| TypeClosure.Closure | tools/li-asn1/trim_ipaccess.py:39-53 | the worklist gives exactly the reachable types, each once, or fails exactly when a reachable one is undefined |
| TapBatch.ComputeTotals | bss/roaming-interconnect/src/tap_batch.cpp:60-106 | charge and counts of an event list |
| TapBatch.SequencesAlike | bss/roaming-interconnect/src/tap_batch.cpp:110-118 | two sequence numbers look alike exactly when equal modulo 100000 |
| TapBatch.BuildBatch | bss/roaming-interconnect/src/tap_batch.cpp:120-170 | the batch with totals and call times computed from its own records |
| TapBatch.SpanExactly | bss/roaming-interconnect/src/tap_batch.cpp:148-163 | the call times are those of the first record with the least local time and the last with the greatest |
| TapBatch.ValidateBatch | bss/roaming-interconnect/src/tap_batch.cpp:172-225 | the findings of the validator, in order |
| TapBatch.CleanExactly | bss/roaming-interconnect/src/tap_batch.cpp:172-225 | nothing is found exactly in a batch that is addressed, numbered, GPRS only and correctly totalled |
| TapBatch.BuiltIsClean | bss/roaming-interconnect/src/tap_batch.cpp:120-225 | what is built validates clean exactly for named parties and a count of 31 bits, and its charge is the sum of the records' |
| BillRun.SumMoney | bss/balance-management/src/bill_run.cpp:13-41 | a total is stated exactly when some item carries the field and no two name different units, and is then the sum |
| BillRun.RunBill | bss/balance-management/src/bill_run.cpp:45-107 | one bill over everything unbilled, and the items put on it |
| BillRun.BilledOnce | bss/balance-management/src/bill_run.cpp:45-107 | over any history each item is on exactly one bill once billed, and a run bills all |
| BillRun.BothConserved | bss/balance-management/src/bill_run.cpp:45-107 | in a single currency no amount is lost or billed twice: the tax-excluded and the tax-included totals of the bills of any history each add up to the billed items |
| BillRun.RunAgain | bss/balance-management/src/bill_run.cpp:55-60 | running again at once bills nothing |

## Left out

- HTTP servers and clients, TLS, metrics, logging and SQL text: plumbing; each statement is modelled by its effect.
- AES, HMAC, SHA, random tokens and JWT verification: arbitrary functions or fresh values.
- Event JSON fields, audit rows of the balance and catalog stores, and bucket side tables: they carry no decision.
- BalanceModel.Evaluate: amounts are integers and whether dates parse and accounts exist is part of the request, because floating point and date syntax are not the point.
- ProvisioningStore.ProvisioningStore.CreateCustomerOrder: order items, service orders and resource orders are written but never read by the saga, so they are not modelled; the UDR write is one atomic replace.
- SagaSafety.DoneMeansProvisioned: assumes that every request accepted for the order covers this one; SagaPromises.RowsGuaranteedExactly shows when that is needed.
- SagaRuns.Reachable: the offerings the catalog knows, and the SUPIs and numbers that other services hold, do not change during a run; releasing a number, deleting rows and writes of the subscriber service are left out.
- SagaSafety.CreditedOnce: a bucket that a top-up creates before the order keeps its amount; such runs are left out.
- Catalog deletion: rests on cascade rules and on references from other schemas.
- CatalogDatabase.Catalog.ListOfferings: the collation that ORDER BY sorts by is any total order on texts.
- MoneyExact conversions from and to floating point: rounding of doubles.
- CAP operations, SUCI concealment, NAS security: mostly calls into code that is not part of this model.
- Scalar AVP codecs, client-error and success packets, base64 and URL codecs: easy members.
- DiameterAvp.EncodeAvp: the padded length is modelled as the next multiple of four, without machine overflow.
- Approver permissions: a handler may stop at any point, which covers every denial.
- SessionRuns.AcceptedIsEntitled: each store call is one step and the policy does not change during a run. For `resolve_session` that drops the runs in which something happens between its SELECT and its UPDATE: a session ended there is still answered as accepted once and its last use is set, and of two overlapping calls the later commit may set the last use back.
- Customer claims of the back end: not modelled.
- ConfigMask.ChangeCredentials: JSON documents are values; a changed document replaces the old one instead of being edited in place.
- ScrubTree.ScrubNode: JSON documents are values, as above; object keys are not scrubbed, as in the code.
- ScrubTree.SecretExactly: texts with a star in which every character there is occurs are left open, and so in StarsExactly and IdentifierExactly.
- TapBatch.BuildBatch: charges are unbounded integers because overflow of the 32-bit sum is undefined in the original.
- AvpDictionary.BuildTable: reading the text of the specification and the cross-check against another dictionary.
- BillRun.BothConserved: arriving items are on no bill and runs have distinct bill numbers.
- Schema derivation from configuration files other than reference inlining: guesses that are marked for review.
