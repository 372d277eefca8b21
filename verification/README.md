# Verification of the distributed banking system

A Dafny model of a small distributed bank: C++ clients that retry requests over UDP, and a Go server that
filters duplicates, runs banking operations and pushes callbacks to subscribers. `dafny verify dfyconfig.toml`
checks the whole project.

## What is modelled

| file | part of the system |
|---|---|
| Bytes, Commands | big-endian numbers, the 64-bit byte swap, tag-length-value field lists and what they mean |
| ClientCodec, ClientMessages | the C++ command encoder and decoder, message serialiser and callback codec |
| ServerCodec | the Go encoder, field decoder, reply and callback builders, header parser |
| WireTheorems | the two decoders agree; round trips in both directions |
| WireNumbers | the layouts in the protocol's own numbers |
| Bank | what each banking call does to a bank, one call at a time; conservation, floor, repetition |
| BankRules | each call told from the accounts' own fields: who may act, every refusal, every change |
| BankObjects | the account store and the banking service as mutable objects, proved against Bank |
| ConcurrentBank, ConcurrentBankProofs, ConcurrentBankTheorems | any number of goroutines with the store's read-write lock and the accounts' mutexes: invariant, deadlock freedom, termination, ledger, no reuse of closed numbers |
| ConcurrentBankRules | who may take, close and be answered in any interleaving |
| Linearizability, LinearizabilityLimits | concurrent calls as if made one at a time, in the order of their decisive steps, and exactly when |
| Reordering | the same in any order: which calls that overlap a closing can be explained |
| SoloRuns, CloseRace, TransferRace | concrete races with a closing, for every account and amount, with and without an order that explains them |
| Dispatching, Handling | invocation semantics for any handler; the bank's handler on values |
| RequestRules | what one request packet does and how it is answered, service by service, in the protocol's own numbers |
| Monitoring | the subscriber table, as an object and against an ideal one |
| History, HandlerObject, ServerLoop | reply history, request handler, dispatcher and request loop as mutable objects |
| Client | request ids, retries and reply selection in the client |
| Network, NetworkProofs, NetworkTheorems, LateReplies, BankEndToEnd | the whole system as a state machine, and what holds in every run |

The server's sequential objects are proved equal, call by call, to value-level functions; the theorems over whole
runs are about those functions. The concurrent bank and the network are step systems whose runs are schedules of
enabled steps.

## Assumptions

- Request ids are 32 bits and wrap: a client issues at most 2^32 requests in its lifetime, and a client endpoint
  belongs to one lifetime (the counter starts again at 0 in a new process).
- The server runs under at-least-once or at-most-once, never without semantics; nothing in it calls EvictBefore or
  EvictClient, which are separate steps here.
- `int` and `size_t` have 64 bits, the client is little-endian, addresses are IPv4 endpoints.
- Money is exact. How amounts relate to the 64-bit patterns on the wire (section 3.4 of IEEE 754-2019 in the
  program) is a parameter on which nothing depends; on the wire amounts are 64-bit words. Integers on the wire are
  big-endian (Appendix B of RFC 791).
- Currencies are raw bytes: client/include/protocol/protocol.h:23-26 numbers them from 0 and
  server/pkg/models/account.go:9-13 from 1.
- Fewer than 2^32 - 10000 accounts are opened, where account numbers must not wrap.
- Clock readings, which datagrams arrive, and which replies are dropped are inputs of the methods and steps of the
  model. A datagram longer than the server's 4096-byte buffer is cut.
- In the concurrent bank a step is one access to shared state together with the thread-local work around it; a
  thread's reads of fields that never change (number, holder, password, currency) are part of the step before.

## Where the code departs from its comments or its promises

The code is followed.

- The comment at server/internal/semantics/header.go:8-14 describes a five-byte header; the code reads 18 bytes.
- The comment at server/internal/handler/handler.go:343-348 says that only the sender of a transfer is announced;
  the code announces both sides.
- The client never compares a reply's id with its own (client/src/core/bankClient.cpp:365-378), so "the reply
  answers the request" is false in general: LateReplies has a run that shows it and the exact condition.
- CloseAccount can detach an account between another call's lookup and its lock, so the calls are not always
  linearisable. Without transfers a complete run is linearisable exactly when no call was refused with the store's
  not-found error (Reordering); in the order of decisive steps it is explained exactly when no call relied on an account
  closed since it looked it up (LinearizabilityLimits); CloseRace and TransferRace have the runs.

## Model

| member | source | states |
|---|---|---|
| NetworkTheorems.AtMostOnceEndToEnd | server/internal/semantics/dispatcher.go:99-117 | In every run of clients, network and server, with loss, duplication, reordering, retries and lost replies, the keys that ran are distinct, each ran with the bytes its client issued, and the server (store, remembered replies, monitor calls) equals one that handles exactly those requests one after another |
| NetworkTheorems.RunKeepsInv | client/src/core/bankClient.cpp:317-396 | Every reachable state of the system keeps the invariant: packets in flight or already served are ones their clients issued under their own ids, replies in flight and replies taken are remembered ones, and the server is what serving the delivered sequence leaves |
| NetworkProofs.StepKeepsInv | server/cmd/main.go:107-137 | One step of any kind (issue, transmit, give up, lose, serve with or without reply loss, push a callback, receive) keeps that invariant, for any handler that echoes the request id |
| NetworkTheorems.OnlyGenuineReplies | client/src/core/bankClient.cpp:362-378 | In every run each datagram a client takes for a reply is not a callback and is byte for byte the reply some request of that same client, issued no later than the current one, got on its single execution; the same holds of every reply still in flight |
| NetworkTheorems.NeverCrossed | server/internal/semantics/dispatcher.go:99-106 | A request in flight and a request that ran under the same key are the same bytes from the same client, so a cached reply is only ever replayed for the very request it answered |
| NetworkTheorems.FreshRequestsMiss | client/src/core/bankClient.cpp:323-327 | A request just issued (fewer than 2^32 before it) has no entry in the reply history |
| NetworkTheorems.WrappedIdIsNotRun | client/src/core/bankClient.cpp:323-327 | Why the bound is needed: a later request meets the entry of an earlier one exactly when the difference of their numbers is a multiple of 2^32, and is then answered from the cache without running |
| LateReplies.IdsTellOwnReplies | client/src/core/bankClient.cpp:365-378 | A reply taken is the current request's own first reply exactly when the id in its header is the current one, a comparison the client does not make |
| LateReplies.MistakesAreLeftovers | client/src/core/bankClient.cpp:356-396 | After a client issues a request, some continuation makes it take an earlier request's reply for this one if and only if, at the moment of issuing, a request or non-callback reply of that client was still on its way |
| LateReplies.PromptRepliesMatch | client/src/core/bankClient.cpp:356-396 | In every run in which nothing of this client's earlier requests is on its way whenever it issues the next, whatever happens to other clients, every reply it took is its current request's own |
| LateReplies.RetriesCanBeMistaken | client/src/core/bankClient.cpp:379-392 | A concrete run from the initial state, for any handler and any two requests, in which the client gives up on the first and takes its late reply as the answer to the second |
| BankEndToEnd.TheHandlerEchoes | server/internal/handler/handler.go:35-90 | The bank's handler meets the only demand the network theorems make: replies are marked as replies and carry the request's id |
| BankEndToEnd.MoneyIsConservedEndToEnd | server/cmd/main.go:107-137 | In every run of the whole system the store is what the distinct requests that ran leave when called once each, the money per currency equals their net inflow, and the callbacks describe exactly the store's balances |
| BankEndToEnd.ClientReadsItsResult | client/src/core/bankClient.cpp:444-460 | A banking command encoded and serialised by the client and cut to the server's buffer does to the bank exactly what its call does, and the reply, deserialised and decoded by the client, carries its id and the call's own result, or the status number of its own error |
| BankEndToEnd.AtLeastOnceRunsRequests | server/internal/semantics/dispatcher.go:79-97 | Every datagram a client serialises with flag 1, its first 4096 bytes, is run by an at-least-once server for any handler: the state, the monitor calls and the reply are the handler's, and nothing is remembered |
| BankEndToEnd.AtLeastOnceReadsItsResult | server/internal/semantics/dispatcher.go:92-97 | ... so a delivery of a banking command in it makes its call on the bank as it stands, and the client reads that call's own result in the reply |
| BankEndToEnd.ClientsReadTheirResults | client/src/core/bankClient.cpp:444-460 | In every run of the whole system a client reads, in every reply it took whose header carries its request's id, the result of the very call that request carried, made on the bank that the requests that ran before it left |
| BankEndToEnd.PromptClientsReadTheirResults | client/src/core/bankClient.cpp:356-396 | The same of every reply a client took, if nothing of its own was left behind whenever it issued a request |
| Dispatching.FilterRefinesOnce | server/internal/semantics/dispatcher.go:73-118 | For every delivery sequence the at-most-once server ends with the state, the remembered replies and the monitor calls of a server that calls the handler once per distinct (client, id) in first-arrival order |
| Dispatching.AnsweredExactly | server/internal/semantics/dispatcher.go:73-81 | A packet is answered if and only if it has 18 bytes and its second byte is 1 under at-least-once or 2 under at-most-once; a header error means fewer than 18 bytes, and what is not answered changes nothing |
| Dispatching.AlwaysRuns | server/internal/semantics/dispatcher.go:92-97 | Under at-least-once every such packet runs the handler, whose reply is the answer, and the history stays as it was |
| Dispatching.FirstArrivalsOnce | server/internal/semantics/dispatcher.go:99-106 | The first arrivals have pairwise distinct keys |
| Dispatching.FirstArrivalsCover | server/internal/semantics/dispatcher.go:99-117 | Every accepted delivery's key has a first arrival |
| Dispatching.RepliesRepeat | server/internal/semantics/dispatcher.go:102-106 | Every later delivery under a key is answered with the bytes of the first reply, whatever was delivered between, and changes nothing |
| Dispatching.RememberedIsFirst | server/internal/semantics/dispatcher.go:108-117 | What is remembered under a key is the reply computed in the state in which that request ran |
| Dispatching.HistoryIsStable | server/internal/semantics/history.go:48-60 | A remembered reply is never changed by later deliveries |
| Dispatching.DroppingIsInvisible | server/internal/semantics/dispatcher.go:92-97 | Under at-least-once, removing deliveries that have no effect changes neither the final state, nor the monitor calls, nor any other reply |
| Dispatching.CopiesRunAgain | server/internal/semantics/dispatcher.go:92-97 | Under at-least-once, k copies of a delivery run the handler k times |
| Dispatching.HistoryAccounting | server/internal/semantics/history.go:63-107 | For every mix of deliveries and evictions, the number of remembered replies equals the handler executions minus the evicted entries |
| Dispatching.EvictionIsSafe | server/internal/semantics/history.go:63-95 | With EvictBefore and EvictClient at any moments, a request whose every delivery carries an id at or above the highest threshold used so far for its client (forgetting the client counting as above every id) still runs at most once |
| Dispatching.RunOrEvicted | server/internal/semantics/history.go:63-95 | A request that has run is still remembered or lies below a threshold already used for its client |
| Dispatching.EvictedRunsAgain | server/internal/semantics/history.go:86-91 | A remembered request delivered right after EvictBefore runs again if and only if it was evicted for its own client and its id is below the threshold, and right after EvictClient if and only if the client is its own |
| History.ReplyHistory.Lookup | server/internal/semantics/history.go:32-43 | Hands out the very buffer remembered for the endpoint and id, and nothing when either table lacks the key |
| History.ReplyHistory.Store | server/internal/semantics/history.go:48-60 | Remembers the reply's bytes under the endpoint and id in a fresh buffer of its own, so the caller's buffer does not become part of the history, and leaves every other entry as it was |
| History.ReplyHistory.EvictClient | server/internal/semantics/history.go:63-69 | Removes exactly the entries of one endpoint |
| History.ReplyHistory.EvictBefore | server/internal/semantics/history.go:74-95 | Removes exactly the entries of one endpoint whose id is strictly below the threshold, and counts them |
| History.ReplyHistory.Size | server/internal/semantics/history.go:98-107 | Adds up the inner tables to the number of entries in all |
| ServerLoop.Dispatcher.constructor | server/internal/semantics/dispatcher.go:54-66 | A history exists exactly under at-most-once, and starts empty |
| ServerLoop.Dispatcher.Dispatch | server/internal/semantics/dispatcher.go:73-118 | The object's store, history, monitor calls and result are those of the value-level dispatch the theorems are about: refused on a short header or a flag that is not the mode (which bytes those are: Dispatching.AnsweredExactly), run and not remembered under at-least-once, replayed or run and remembered under at-most-once; the buffer returned is the remembered one only when the reply is replayed |
| ServerLoop.Dispatcher.RunAndRemember | server/internal/semantics/dispatcher.go:108-117 | A first delivery runs the handler once and remembers a copy of its reply; the buffer handed back is not in the history |
| ServerLoop.StartServer | server/cmd/main.go:77-96 | The wired server starts with an empty store, no subscriber and no reply remembered |
| ServerLoop.ServeDatagrams | server/cmd/main.go:107-137 | After any finite run of the loop the server is what serving the received datagrams, cut to 4096 bytes, leaves; the replies sent are those neither refused nor dropped, in order, and dropping changes nothing else |
| ServerLoop.RepliesSentExactly | server/cmd/main.go:107-137 | The replies sent are exactly those of the turns whose datagram, cut to 4096 bytes and dispatched on what the turns before left, has a reply that is not dropped: one each, to where the request came from, in the order of the turns |
| Handling.FailuresHaveNoEffect | server/internal/handler/handler.go:35-366 | Every packet with a header gets a reply that the client parses under the packet's own id, and a non-zero status implies the bank unchanged and the monitor not called |
| Handling.RepliesEchoTheId | server/internal/marshalling/reply.go:16-59 | The first byte of every reply marks it as a reply and bytes 2 to 5 repeat the request's id |
| Handling.RequestKeepsView | server/internal/handler/handler.go:131-163 | Folding the updates one request announces (set a balance, remove on close) over the balances before it gives the balances after it, both sides of a transfer included |
| Handling.CallbacksMirrorStore | server/internal/handler/handler.go:349-363 | After any deliveries in either mode the fold of all announced updates is exactly the store's account-to-balance map |
| Handling.EnquiriesAreInvisible | server/internal/handler/handler.go:279-305 | Under at-least-once, all GetBalance deliveries can be removed from a run without changing the store, the callbacks or any other reply |
| Handling.RetransmissionsPayAgain | server/internal/semantics/dispatcher.go:92-97 | Under at-least-once, k deliveries of one otherwise valid withdrawal or transfer of a from balance b take effect exactly min(k, floor(b/a)) times |
| RequestRules.StatusExactly | server/internal/handler/handler.go:373-392 | For every decodable request the reply's status is 0, 1, ..., 7 exactly when the command's and the accounts' fields say so, check by check in the program's order: 7 a missing field, an unknown service or an amount not above zero, 6 a transfer to itself, 2 an unknown account or a wrong password, 1 an unknown receiver, 3 a wrong holder, 4 a wrong currency, 5 too little money; any but 0 comes without content, changes nothing and announces nothing |
| RequestRules.FixedPasswordIsSame | server/internal/marshalling/helpers.go:27-37 | A stored password is the one a given string stands for exactly when its eight bytes are the string's first, filled up with zeroes |
| RequestRules.UnreadableExactly | server/internal/handler/handler.go:35-60 | A packet without a header or with fields that cannot be read is answered with status 7, byte for byte, and changes nothing; without a header the id is 0 |
| RequestRules.OpenRequest | server/internal/handler/handler.go:104-140 | Service 1 creates the account under the next number with the given holder, eight-byte password, currency and balance and changes no other; the reply's bytes carry the number, and the one update announced carries service 1, number, holder, currency and balance |
| RequestRules.CloseRequest | server/internal/handler/handler.go:142-173 | Service 2 by the holder removes that account and nothing else; the reply has no content, and the one update carries service 2, number, holder, currency 0 and balance 0 |
| RequestRules.DepositRequest | server/internal/handler/handler.go:175-216 | Service 3 by the holder adds the amount to that account and changes nothing else; the reply's bytes carry the new balance, and the one update carries service 3, number, holder, currency and new balance |
| RequestRules.WithdrawRequest | server/internal/handler/handler.go:218-258 | Service 4 by the holder takes the amount from that account and changes nothing else; reply and update (service 4) carry the new balance |
| RequestRules.MonitorRequest | server/internal/handler/handler.go:260-277 | Service 5 registers the sender's address for the seconds given, touches no account and is answered without content |
| RequestRules.EnquiryRequest | server/internal/handler/handler.go:279-305 | Service 6 by the holder is answered with the balance, changes nothing and announces nothing |
| RequestRules.TransferRequest | server/internal/handler/handler.go:307-366 | Service 7 by the holder moves the amount between the two accounts and changes nothing else; the reply carries the sender's new balance, and exactly two updates follow, each service 7 with currency 0: sender's number, owner name and balance, then receiver's number, receiver name and balance |
| HandlerObject.Handler.Handle | server/internal/handler/handler.go:35-67 | The reply, the new store and the calls on the monitor are those of the value-level handler on the store as it was; a short header or undecodable payload is an internal error |
| HandlerObject.Handler.Route | server/internal/handler/handler.go:68-90 | The switch on the service field reaches the handler whose store, reply and announcements are those of the value-level handler (what each service byte does: RequestRules); a missing or unknown service is an internal error without effect |
| HandlerObject.Handler.HandleOpen | server/internal/handler/handler.go:104-140 | Opens with the given holder, fixed password, currency and balance, replies with the new number and announces it |
| HandlerObject.Handler.HandleClose | server/internal/handler/handler.go:142-173 | Closes, announces the number with balance zero, replies without content; on error maps the status and announces nothing |
| HandlerObject.Handler.HandleDeposit | server/internal/handler/handler.go:175-216 | Deposits, replies with and announces the new balance; on a missing field or error changes and announces nothing |
| HandlerObject.Handler.HandleWithdraw | server/internal/handler/handler.go:218-258 | Withdraws, replies with and announces the new balance; on a missing field or error changes and announces nothing |
| HandlerObject.Handler.HandleMonitor | server/internal/handler/handler.go:260-277 | Registers the sender for the given seconds and leaves the store alone |
| HandlerObject.Handler.HandleGetBalance | server/internal/handler/handler.go:279-305 | Replies with the balance, changes nothing and announces nothing |
| HandlerObject.Handler.HandleTransfer | server/internal/handler/handler.go:307-366 | Transfers, replies with the sender's new balance and announces both sides, sender first |
| Bank.Conservation | server/internal/banking/bank.go:53-80 | Over any sequence of calls, in each currency the live total equals openings plus deposits less withdrawals and the balances that closing removed |
| Bank.CallConserves | server/internal/banking/bank.go:194-221 | One call changes each currency's total by exactly what it brought in; a transfer moves nothing between currencies |
| Bank.Floor | server/internal/banking/bank.go:137-142 | Over any sequence of calls no balance is below the smaller of zero and its opening balance |
| Bank.NumbersDoNotWrap | server/internal/store/memory.go:28-38 | While fewer than 2^32 - 10000 accounts were opened, every live account carries the number it is stored under, given out before and at least 10000 |
| BankRules.OnlyTheHolderActs | server/internal/banking/bank.go:43-51 | A call on an account that does not fail named an existing account, its password and its holder; in every other case it fails and changes nothing |
| BankRules.RefusedExactly | server/internal/banking/bank.go:43-51 | Each error, and success, if and only if the account's and the call's own fields say so: amount, distinct sides, existence, password, holder, currency and funds, in this order |
| BankRules.ChangesExactly | server/internal/banking/bank.go:53-221 | What a call that goes through changes and returns: the new account under the next number, the account removed, or one or two balances, and nothing else in the bank |
| BankRules.NumbersAreIssuedInTurn | server/internal/store/memory.go:28-38 | After any sequence of calls the next number is 10000 plus the openings made, modulo 2^32 |
| Bank.RepeatedPayment | server/internal/banking/bank.go:115-149 | k repetitions of one payable withdrawal or transfer of a from balance b debit (and credit) exactly min(k, floor(b/a)) times |
| BankObjects.MemoryStore.CreateAccount | server/internal/store/memory.go:28-38 | Gives the account the next number, stores it under it, and advances the 32-bit counter with wrap-around |
| BankObjects.MemoryStore.GetAccount | server/internal/store/memory.go:42-53 | Finds the object stored under a number, or reports that there is none |
| BankObjects.MemoryStore.UpdateAccount | server/internal/store/memory.go:57-67 | Stores the object under its number only if the number is still there; otherwise reports not found and changes nothing |
| BankObjects.MemoryStore.DeleteAccount | server/internal/store/memory.go:71-81 | Removes exactly that number, or reports not found and changes nothing |
| BankObjects.Service.OpenAccount | server/internal/banking/bank.go:53-61 | The store and result are those of the value-level call; the number returned is the one the store was to give out next |
| BankObjects.Service.CloseAccount | server/internal/banking/bank.go:64-80 | The store and result are those of the value-level call; the store's not-found error cannot occur; who is let in, and each refusal, is settled by BankRules.RefusedExactly |
| BankObjects.Service.Deposit | server/internal/banking/bank.go:83-112 | The store and result are those of the value-level call on the old store; no other account changes, and the store's not-found error cannot occur; who is let in, and each refusal, is settled by BankRules.RefusedExactly |
| BankObjects.Service.Withdraw | server/internal/banking/bank.go:115-149 | The store and result are those of the value-level call on the old store; no other account changes, and the store's not-found error cannot occur; who is let in, and each refusal, is settled by BankRules.RefusedExactly |
| BankObjects.Service.CheckBalance | server/internal/banking/bank.go:152-168 | Reports the balance or the refusal of the value-level call and changes nothing; who is let in, and each refusal, is settled by BankRules.RefusedExactly |
| BankObjects.Service.Transfer | server/internal/banking/bank.go:171-221 | The store and both returned balances are those of the value-level call on the old store, refusals in the source's order; who is let in, and each refusal, is settled by BankRules.RefusedExactly |
| BankObjects.Service.MoveFunds | server/internal/banking/bank.go:209-220 | Refuses and changes nothing when the balance is below the amount; otherwise debits one account, credits the other, and neither store update fails |
| ConcurrentBankProofs.RunKeepsInv | server/internal/banking/bank.go:53-221 | Under every interleaving of any number of calls, Close included: numbers are unique and match, each mutex is owned by exactly the thread whose program point holds it, the store lock has one writer or any readers, and every thread's objects are the ones its call named and was granted |
| ConcurrentBankProofs.StepKeepsInv | server/internal/banking/bank.go:198-218 | One step of any thread keeps that invariant |
| ConcurrentBankTheorems.EveryRunCanGoOn | server/internal/banking/bank.go:198-207 | No deadlock: in every reachable state with an unfinished thread some thread can move, even when a waiting writer holds back new readers |
| ConcurrentBankProofs.NoDeadlock | server/internal/banking/bank.go:74-79 | From any state satisfying the invariant a movable thread is found by following the owners of mutexes, which rise by account number, with the store lock innermost |
| ConcurrentBankTheorems.RunsAreShort | server/internal/banking/bank.go:53-221 | Every run of n calls makes at most 15 n steps, whatever the schedule |
| ConcurrentBankTheorems.Ledger | server/internal/banking/bank.go:105-109 | In every reachable state, in any one currency and in any set of currencies, the balances of all account objects ever created, live or detached, add up to openings plus applied deposits less applied withdrawals, less the amounts between a transfer's two writes |
| ConcurrentBankTheorems.FloorUnderInterleaving | server/internal/banking/bank.go:137-142 | In every reachable state, closings included, no account object is below the smaller of zero and the balance it was opened with: no interleaving overdraws an account |
| ConcurrentBankRules.OnlyTheHolderTakes | server/internal/banking/bank.go:43-221 | In every reachable state of any interleaving, closings included, no step takes money from an account, adds any or removes one from the store unless its thread's call may: a taker or closer named the account, its password and its holder, and a gain is the amount of the holder's deposit or of a transfer by an account's holder to this account; nothing but the balance of an account ever changes |
| ConcurrentBankRules.OnlyTheHolderIsAnswered | server/internal/banking/bank.go:43-51 | In every interleaving a call on an account that finished without an error named that account's number, password and holder |
| ConcurrentBankTheorems.ClosedNumbersStayClosed | server/internal/store/memory.go:57-81 | Between any two moments of any run: every live number leads to the object created with it, a number given out and not live stays dead although updates are pending, and at most one close of a number succeeds |
| ConcurrentBankTheorems.NoResurrection | server/internal/banking/bank.go:64-80 | The same from any state that satisfies the invariant |
| Linearizability.LinearizableWithoutClose | server/internal/banking/bank.go:83-221 | With no CloseAccount among the calls, every interleaving gives the results and leaves the store of the same calls made one at a time, in the order of their lock-held sections, or of the lookup for calls that fail earlier, and that order respects real time |
| Linearizability.Linearizable | server/internal/banking/bank.go:74-109 | The same with closes, real time included, in every run, finished or not, in which no thread relies on an account closed since it looked it up |
| LinearizabilityLimits.LinearizableExactly | server/internal/banking/bank.go:95-109 | In the order of decisive steps: a complete run has the results and leaves the store of its calls made one at a time in that order if and only if no thread relied on an account closed since it looked it up |
| Reordering.LinearizableUnlessRefused | server/internal/banking/bank.go:95-109 | In any order: for complete runs in which no transfer relied on an account closed since it was looked up, some order of the calls that respects real time explains every result and the final store if and only if no call was refused with the store's not-found error, and if and only if what was relied on after closing was only read |
| Reordering.LinearizableWithoutTransfer | server/internal/banking/bank.go:64-168 | In particular for every complete run of calls without Transfer |
| Reordering.ReadingRunsAreLinearizable | server/internal/banking/bank.go:152-168 | Every run, finished or not, in which accounts closed since they were looked up are only read is linearisable: such a call moves to just before the closing |
| Reordering.StoreErrorIsUnexplained | server/internal/store/memory.go:57-81 | No order at all explains a run in which a finished call returned the store's not-found error |
| Linearizability.RealTimeOrder | server/internal/banking/bank.go:83-221 | At any moment of such a run, calls that have finished are ordered before calls that have not begun |
| Linearizability.StepKeepsLinear | server/internal/banking/bank.go:105-109 | One step either leaves the abstract bank and the log alone, or decides one call with the result and effect the call has alone |
| CloseRace.DepositLosesRace | server/internal/banking/bank.go:74-109 | For every account and positive deposit a complete run in which a close falls between the deposit's lookup and its lock: the deposit fails with the store's not-found error although the detached object was credited, and no order of the calls explains the run |
| CloseRace.EnquirySurvivesRace | server/internal/banking/bank.go:152-168 | For every account a complete run in which a close falls between a balance enquiry's lookup and its lock: the order of decisive steps does not explain it, another order does |
| TransferRace.SeenTooEarly | server/internal/banking/bank.go:209-220 | A complete run, nothing refused by the store, in which a transfer takes money from an account closed since it was looked up and an enquiry came between: no order explains it |
| TransferRace.SeenLater | server/internal/banking/bank.go:209-220 | The same calls with the transfer as late and the enquiry after it: an order explains the run |
| Bank.NeverStoreNotFoundAlone | server/internal/store/memory.go:57-81 | No call made alone returns the store's own not-found error |
| WireTheorems.DecodersAgree | client/src/protocol/cmdEncoder.cpp:44-113 | On every byte string the client decodes exactly when the server decodes, the input is not empty and every string field is at most 1024 bytes, and then both yield the same last-wins command; the empty-input error means just that |
| WireTheorems.ServerDecodesMeaning | server/internal/marshalling/tlv.go:22-119 | The server accepts exactly the byte strings that lay out well-formed fields, and yields for each field its last occurrence |
| WireTheorems.SetFieldsAgree | client/src/protocol/cmdEncoder.cpp:351-499 | Field by field the two decoders store the same values, except that the client refuses strings above 1024 bytes; each of its three errors exactly when |
| WireTheorems.ServerReadsCommand | server/internal/marshalling/tlv.go:22-119 | The server reads back every non-empty command the client encodes whose strings fit 32-bit lengths |
| WireTheorems.ClientReadsCommand | client/src/protocol/cmdEncoder.cpp:9-113 | The client reads its own encoding back if and only if no string exceeds 1024 bytes |
| WireTheorems.RequestRoundTrip | server/internal/semantics/header.go:42-56 | A request encoded and serialised by the client: the server parses the very header fields and, from byte 18 on, the very command |
| WireTheorems.ReplyRoundTrip | client/src/protocol/msgSerializer.cpp:58-119 | A reply built by the server: the client deserialises the id, address, status and content it was built from, type 1 and flag 0 |
| WireTheorems.ReplyWithTail | client/src/protocol/msgSerializer.cpp:58-119 | ... whatever bytes follow the declared content |
| WireTheorems.CutReplyIsRefused | client/src/protocol/msgSerializer.cpp:58-119 | Every proper prefix of a reply is refused: up to 17 bytes as too short a header, from 18 on as too short a content |
| WireTheorems.ReplyFieldsRoundTrip | server/internal/marshalling/reply.go:16-59 | ... and decodes any non-empty well-formed field list in it to what the list stands for |
| WireTheorems.CallbackRoundTrip | client/src/protocol/callbackEncoder.cpp:57-118 | The server's callback packet is the client's own encoding of the update, and the client decodes every field of it, the amount bit for bit, whatever bytes follow; its first byte is 2 |
| WireTheorems.EncodeSucceeds | client/src/protocol/cmdEncoder.cpp:9-41 | Encoding fails exactly on the empty command, and otherwise yields the non-empty packed fields |
| WireTheorems.HeaderLayout | client/src/protocol/msgSerializer.cpp:8-55 | Where each header field lies: type and flag in bytes 0 and 1, id from 2, address from 6, port from 10, status from 12, content length from 14, content from 18 |
| WireNumbers.RequestLayout | client/src/protocol/msgSerializer.cpp:8-55 | The bytes of every request, and that the server reads flag and id from where the client put them |
| WireNumbers.FieldsByNumber | server/internal/marshalling/tlv.go:47-119 | Which id stands for what: for every readable payload, and each of the ten parts of the command, the server decodes the value v if and only if v is what the last field with that part's id (1 service, 2 account number, ..., 10 monitor seconds) holds, big-endian |
| WireNumbers.Base256 | server/internal/marshalling/encoder.go:24-40 | Four bytes stand for the number they spell in base 256, highest digit first, in both directions |
| WireNumbers.Be64OfLoad | server/internal/marshalling/encoder.go:42-46 | Loading eight big-endian bytes and writing them back gives the bytes |
| Commands.FieldsOfPack | server/internal/marshalling/tlv.go:121-129 | Reading a packed field list gives the list back, whatever incomplete header follows it |
| Commands.PackOfFields | server/internal/marshalling/tlv.go:22-45 | Every readable byte string is a packed field list followed by fewer than five bytes |
| Bytes.SwapInvolution | client/src/protocol/cmdEncoder.cpp:184-199 | The mask-and-shift 64-bit byte swap undoes itself |
| Bytes.SwapReversesBytes | server/internal/marshalling/encoder.go:42-46 | The little-endian bytes of the swapped word are the big-endian bytes of the word, for every 64-bit pattern |
| Bytes.SwapOfLoad | client/src/protocol/cmdEncoder.cpp:434-458 | Swapping a word loaded little-endian gives the word loaded big-endian |
| Bytes.Be64RoundTrip | server/internal/marshalling/encoder.go:42-46 | Eight big-endian bytes and the 64-bit word determine each other |
| ClientCodec.SafeAdd | client/include/utils/safemath.h:19-22 | In the unsigned 64-bit instance the decoders use, the wrapped sum is refused exactly when the true sum does not fit 64 bits |
| ClientCodec.EncodeMessage | client/src/protocol/cmdEncoder.cpp:9-41 | Visits the ten fields in declaration order and yields the packed fields that are present, or the empty-command error |
| ClientCodec.DecodeMessage | client/src/protocol/cmdEncoder.cpp:44-113 | The loop over offsets yields the same result, errors included, as the recursive reading the agreement theorem is about |
| ClientCodec.ByteVector.AppendUint32 | client/src/protocol/cmdEncoder.cpp:178-182 | Appends the four big-endian bytes |
| ClientCodec.ByteVector.AppendDouble | client/src/protocol/cmdEncoder.cpp:184-199 | Appends the eight bytes the server's encoder appends for the same pattern |
| ClientCodec.ByteVector.VisitDouble | client/src/protocol/cmdEncoder.cpp:290-300 | Appends id, length eight and the big-endian word if the field is present, and nothing otherwise |
| ClientCodec.ByteVector.VisitString | client/src/protocol/cmdEncoder.cpp:242-252 | Appends id, 32-bit length and the bytes if the field is present, and nothing otherwise |
| ClientCodec.ByteVector.VisitUint32 | client/src/protocol/cmdEncoder.cpp:230-240 | Appends id, length four and the big-endian number if the field is present, and nothing otherwise |
| ClientCodec.ByteVector.VisitByte | client/src/protocol/cmdEncoder.cpp:218-228 | Appends id, length one and the byte if the field is present, and nothing otherwise |
| ServerCodec.EncodeTLVFields | server/internal/marshalling/tlv.go:121-129 | The loop packs the fields in order |
| ServerCodec.DecodeTLV | server/internal/marshalling/tlv.go:22-119 | The loop over offsets yields the same result, errors included, as the recursive reading the agreement theorem is about |
| ServerCodec.BuildReply | server/internal/marshalling/reply.go:16-59 | Type 1, flag 0, id, address, port, 16-bit status, content length and content, in that order, 18 bytes before the content |
| ServerCodec.MarshalCallbackUpdate | server/internal/marshalling/callback.go:12-38 | Type 2, service, number, length-prefixed holder, currency and balance, in that order |
| ServerCodec.Encoder.PutFloat64 | server/internal/marshalling/encoder.go:42-46 | Appends the big-endian bytes of the pattern |
| ServerCodec.Encoder.PutLengthPrefixedString | server/internal/marshalling/encoder.go:64-67 | Appends the 32-bit length and the bytes |
| ClientMessages.Serialize | client/src/protocol/msgSerializer.cpp:8-55 | The eighteen header bytes in order, then the content |
| ClientMessages.Deserialize | client/src/protocol/msgSerializer.cpp:58-135 | Refuses a short header or a declared length past the end; otherwise returns the fields and exactly the declared content |
| ClientMessages.EncodeCallback | client/src/protocol/callbackEncoder.cpp:7-54 | The callback's fields in order, the amount big-endian through the swap |
| ClientMessages.DecodeCallback | client/src/protocol/callbackEncoder.cpp:57-118 | Given a buffer that holds the declared name, returns the fields; fewer than 19 bytes are refused |
| Client.BankClient.BuildMessage | client/src/core/bankClient.cpp:317-336 | Under at-most-once the n-th message carries id n modulo 2^32, otherwise id 0 |
| Client.BankClient.PrepareMessage | client/src/core/bankClient.cpp:338-354 | The serialised message of the encoded command; a command that cannot be encoded uses up no id |
| Client.BankClient.SendToServer | client/src/core/bankClient.cpp:356-396 | At most five transmissions, all of the same bytes; the waits are an initial part of 2, 4, 8, 16 seconds; one transmission for each attempt made whose send succeeds; the result is the first non-callback datagram of the first attempt that had one, or the failure of the fifth attempt |
| Client.BankClient.ExecuteRequest | client/src/core/bankClient.cpp:444-460 | One id per logical request on all its transmissions, at least one if the first send succeeds; the result is what the chosen datagram deserialises to, with a non-zero status an error |
| Client.FirstReplyIsNoCallback | client/src/core/bankClient.cpp:365-372 | The datagram taken is the first whose first byte is not 2; none is taken only if all are callbacks |
| Monitoring.SweepingIsInvisible | server/internal/monitor/manager.go:74-149 | For every schedule of registrations, notifications and sweeps under a clock that does not run backwards, the unexpired table entries are exactly the clients whose latest registration, lasting the seconds asked for at 10^9 nanoseconds each, has not run out |
| Monitoring.KeptUnlessExpired | server/internal/monitor/manager.go:138-149 | A client is dropped only after its latest registration has expired, and a kept entry is that registration |
| Monitoring.Manager.Register | server/internal/monitor/manager.go:56-69 | Overwrites the client's registration to end the interval after now |
| Monitoring.Manager.NotifyAll | server/internal/monitor/manager.go:74-106 | Reaches exactly the clients whose latest registration has not expired, as a table that never drops anyone would, with one marshalled packet; drops the expired |
| Monitoring.Manager.EvictExpired | server/internal/monitor/manager.go:138-149 | Drops exactly the expired entries; no client whose latest registration runs on is lost |

## Left out

- Client.BankClient.SendToServer: what an attempt can receive is a finite list, so an endless stream of callbacks is not modelled; the waits are returned, not slept.
- ServerLoop.ServeDatagrams: any finite run of the endless loop; failed reads and failed sends on the socket are left out because they change nothing but the log.
- Reordering.LinearizableUnlessRefused: says nothing of runs in which a transfer relied on a closed account, beyond that a store error rules out every order. Such a transfer ignores the failed update and succeeds, and whether an order explains it depends on what other calls saw meanwhile, not on anything the transfer or the closing did: TransferRace has two runs of the same calls that differ only in when an enquiry came, one explained and one not.
- ClientCodec.SafeAdd: the template's branch for signed types, which no decoder uses.
- History.ReplyHistory.Lookup: hands out the remembered buffer, so callers must not write to it; the server does not.
- Monitoring.Manager.NotifyAll: one packet and the set of clients it goes to are returned; the order of the sends and their failures are not modelled.
- ClientMessages.DecodeCallback: the decoder checks only the 19-byte minimum, so the caller must pass a buffer that holds the declared name; what the program does otherwise is not modelled.
- Bank.Conservation: balances are real numbers; float64 rounding, NaN and infinities are not modelled.
- NetworkTheorems.AtMostOnceEndToEnd: callbacks may be pushed to anyone at any time, more than the server does; a datagram not sent by a client or the server is not modelled.
- ConcurrentBankTheorems.EveryRunCanGoOn: the goroutines are those of the banking service; the server's own loop handles one datagram at a time.
- BankObjects.Service.Transfer: the objects are used by one caller at a time; locking is modelled in ConcurrentBank.
- Sockets, timeouts as real time, logging and command-line parsing: input and output.
- The client's prompts, input validation and printing, and its callback listening loop: string checks with easy claims.
- The loss simulator's random generator (server/internal/semantics/losssim.go): replaced by a free choice.
- The Go reader class (server/internal/marshalling/decoder.go), field-name tables, status and currency names, Uint32ToIPv4: easy, or without use in the server.
- The sweeper's ticker and Stop channel: the sweep itself may happen at any time.
- Mode parsing and the mode without semantics: the dispatcher has no history then.
