# FireFly ERC20/ERC721 tokens connector, verified

A Dafny model of the connector that sits between FireFly clients (one websocket) and a blockchain
connector (upstream event streams and transactions). The connector keeps no database, so what it
promises rests on protocols and encodings; these are what is modelled and proved here.

- **Delivery protocol** (`ProxyState`, `ProxyService`, `ProxyLog`, `ProxyRuns`, `ProxyDelivery`,
  `ProxySafety`, `ProxyLateJoins`, `ProxyOrder`, `ProxyOneBatch`, `ProxySockets`, `ProxyLatest`,
  `ProxyWitnesses`). `EventStreamProxy` is the gateway as a class with the source's maps, lists
  and loops; every method is proved equal to a function on its state. Those functions make a
  labelled transition system whose steps are the synchronous stretches of the code (a start is
  split at its `await`) and the moves of clients and upstream. A log records everything that
  crosses the process boundary. Random client choice, `uuidv4`, `nanoid` and new sockets are
  nondeterministic choices with fresh ids.
- **Enrichment** (`Enrichment`). `processEvents` as loops, and again as a machine in which handler
  promises settle in any order.
- **Operation compiler and event decoder** (`MethodTables`, `AbiMapper`, `MethodChoice`, `Calls`,
  `Arguments`, `Erc20`, `Erc721`, `Erc20Meaning`, `Erc721Meaning`, `Succeeds20`, `Succeeds721`,
  `Listener`, `MessageIds`, `EventSignatures`, `RoundTrip20`, `RoundTrip721`, `Replay20`,
  `Replay721`). Requests are compiled through the method tables, executed on EIP-20/EIP-721
  ledgers with the behaviour of the sample contracts, and the emitted events are decoded again.
  How the blockchain connector reads the text of a quantity is a parameter of all of this
  (`Reading`); only results about getting the same text back ask that it reads a plainly written
  number as that number.
- **Codecs** (`Utf8`, `Hex`, `Percent`, `Escapes`, `Text`, `Names`, `TextForms`, `Decimal`,
  `Numerals`, `EventIds`): UTF-8 (section 3 of RFC 3629), hex (section 8 of RFC 4648),
  percent-encoding (section 2.1 of RFC 3986, section 19.2.6 of ECMA-262), numerals as `BigInt`
  reads them (section 7.1.14 of ECMA-262), URL query strings (section 5 of the WHATWG URL
  Standard), all as functions on sequences. A Dafny `string` is a sequence of Unicode scalar
  values, that is, a well-formed string.
- **Subscription store** (`Subscriptions`, `Migration`), **retry loop** (`Retry`) and **interface
  cache** (`InterfaceCache`). `Js` holds optional values and the insertion-ordered map.

Where the results have limits in the code, the limit is part of the result:

- `!awaitingAck.filter(...)` negates an array and is never true, so an upstream ack is sent only when
  a client's list becomes empty (`AckAnsweredIff`, `FirstAckNotAnswered`).
- `handleDisconnect` deletes the client's list inside the loop over namespaces, so it nacks only the
  messages of the namespace that is first in the map (`DisconnectNacksAllIff`,
  `SecondNamespaceNotNacked`).
- A start checks, awaits and then sets; overlapping starts of one namespace replace a socket that
  stays open (`SocketsExactIff`, `OverlappingStartsLeak`). The proxy talks to the one opened last
  (`LatestAlways`).
- A start that succeeds for a client that has left meanwhile registers it all the same. The delivery
  results hold for every run, this included; what it costs is exact. All registered clients are
  connected if and only if it never happened (`AttendedIff`), only after it can a message be handed
  to a client that is gone (`CanLoseIff`), and such a message is never acked, discarded or settled
  (`LateIsLost`, `ImpatientClientSwallows`).
- The repository's README.md (line 100) says that `tokenIndex` is ignored by contracts that index
  their tokens themselves. The code refuses such a request (`verifyNoIndex`, `src/tokens/erc721.ts`
  391-395), and so does the model.
- `burnWithData` of the sample ERC721 contract checks that the caller names itself, not that it holds
  the token. A burn therefore reads back with the holder it was asked for exactly if that is who held
  the token (`RoundTrip721.ReadsBackIff`).
- Approving an allowance that is read as zero, however it is spelled, or one token to the zero
  address, reads back as not approved (`ApprovedReadsBackIff`, `ReadsBackIff`, `ZeroAllowances`).
- Amounts and indexes come back in the text they were sent as exactly if that is plain decimal
  (`AmountReadsBackIff`, `ReadsBackIff`).
- The first of a contract's mint methods, in the order of the table, decides: it refuses a request with
  an index or URI it does not take even where a later one would accept it (`NonfungibleMint`,
  `UriMintDecides`).
- Signer and holder are compared as text, so a request that spells one address in two ways is not
  served by the methods for the holder alone (`SpellingServesIff`).
- The `blockchain` block of an approval for all tokens is named after the signature as it arrived,
  prefix included; those of other messages are not (`OriginNames`).
- Event ids sort in chain order exactly as long as block numbers fit 12 digits and transaction and log
  indexes 6 (`SortsLikeChainIff`).
- Overlapping activations can create a subscription twice exactly if a name they share is missing
  (`AlwaysOnceIff`), and overlapping deactivations can fail exactly if a name they share is there
  (`NeverFailsIff`).
- With `retriesMax` below -1 no call is made at all (`NoCalls`); with -1 every pause is the first one
  (`UnlimitedRun`).

## Model

| member | source | states |
|---|---|---|
| ProxyService.EventStreamProxy.HandleConnection | src/eventstream-proxy/eventstream-proxy.base.ts:67-72 | a new client gets an empty list, a known one keeps its list; nothing else changes |
| ProxyService.EventStreamProxy.StartListening | src/eventstream-proxy/eventstream-proxy.base.ts:94-133 | the part of a start before its `await`: nothing if the proxy is not configured; joins and replies at once if the namespace has a socket; otherwise suspends and changes nothing |
| ProxyService.EventStreamProxy.ResumeStart | src/eventstream-proxy/eventstream-proxy.base.ts:100-129 | the part after the `await`: the new socket replaces whatever is registered by then, no other changes, the client joins and is replied to; a failed connection changes nothing and is not replied to |
| ProxyService.EventStreamProxy.QueueTask | src/eventstream-proxy/eventstream-proxy.base.ts:90-106 | a pushed batch goes to the end of the promise chain |
| ProxyService.EventStreamProxy.Send | src/eventstream-proxy/eventstream-proxy.base.ts:258-273 | the message is tracked for, and sent to, the one chosen client of its namespace, or to nobody if there is none |
| ProxyService.EventStreamProxy.HandleAck | src/eventstream-proxy/eventstream-proxy.base.ts:226-256 | an accepted ack leaves all other messages in the list and is passed upstream only if none is left |
| ProxyService.EventStreamProxy.HandleDisconnect | src/eventstream-proxy/eventstream-proxy.base.ts:135-160 | the loop that mutates the map it visits ends in the closed form: nacks for the first namespace, closes for every namespace left without clients, in map order |
| ProxyService.PartialStep | src/eventstream-proxy/eventstream-proxy.base.ts:139-159 | one callback of the disconnect loop takes the closed form for the first i namespaces to that for i + 1 |
| ProxyLog.Conservation | src/eventstream-proxy/eventstream-proxy.base.ts:226-273 | in any legal log a message is in flight to a client exactly if it was sent to it, is not acked, and no departure of the client came after the sending |
| ProxyLog.OneVerdict | src/eventstream-proxy/eventstream-proxy.base.ts:135-160 | in any legal log no two verdicts concern one message id |
| ProxyRuns.RegistryAlways | src/eventstream-proxy/eventstream-proxy.base.ts:94-160 | after every run, however starts interleave, both maps have the same keys, no client set is empty and every registered socket is open |
| ProxyDelivery.DeliveryStep | src/eventstream-proxy/eventstream-proxy.base.ts:94-273 | every step keeps the whole delivery invariant, including that a held message's namespace has a socket; nothing is assumed about when clients leave |
| ProxyDelivery.DeliveryAlways | src/eventstream-proxy/eventstream-proxy.base.ts:67-273 | after every run every list is what the log says is in flight to its client, every connected client has one, and whoever holds a message is registered for its namespace |
| ProxySafety.VerdictSafety | src/eventstream-proxy/eventstream-proxy.base.ts:135-160 | in every run each upstream ack directly answers the client ack that emptied the list, each nack is for a message its departing client holds, both go to the open socket of that namespace, and no message gets two verdicts |
| ProxySafety.AckAnsweredIff | src/eventstream-proxy/eventstream-proxy.base.ts:241-251 | in every run a client ack is answered upstream if and only if it empties that client's list |
| ProxySafety.MessageConservation | src/eventstream-proxy/eventstream-proxy.base.ts:226-273 | in every run a message sent is held, acked or discarded with its client, in one of these only, unless it was sent to a client that was gone and has no list; exactly then it is in none |
| ProxySafety.ListsDisjoint | src/eventstream-proxy/eventstream-proxy.base.ts:258-273 | in every run a message id is in at most one list, once, of a client it was sent to, and that client is connected if and only if it was not gone when the message was sent |
| ProxySafety.DisconnectNacksAllIff | src/eventstream-proxy/eventstream-proxy.base.ts:139-151 | a disconnect nacks everything the client held if and only if all of it belongs to the first namespace of the map |
| ProxySafety.UnsettledForever | src/eventstream-proxy/eventstream-proxy.base.ts:135-160 | a message left behind without a verdict never gets one later |
| ProxySafety.LateIsLost | src/eventstream-proxy/eventstream-proxy.base.ts:135-160 | a message sent to a client that was gone is never acked, discarded or given a verdict |
| ProxyLateJoins.AttendedIff | src/eventstream-proxy/eventstream-proxy.base.ts:94-118 | after a run the delivery invariant holds with every registered client connected, if and only if no start ever succeeded for a client that had left |
| ProxyLateJoins.CanLoseIff | src/eventstream-proxy/eventstream-proxy.base.ts:94-118 | without any further start, some continuation of a run hands a message to a client that is gone if and only if such a start has happened |
| ProxyLateJoins.ConservationInTime | src/eventstream-proxy/eventstream-proxy.base.ts:226-273 | if no such start has happened, every message sent is held by a connected client, acked or discarded, in exactly one of these |
| ProxyOrder.HandedOutInOrder | src/eventstream-proxy/eventstream-proxy.base.ts:90-106 | in every run the batches of the messages sent are a subsequence of the batches that arrived: none is handed out twice or before an earlier one |
| ProxyOneBatch.ExactlyOneVerdict | src/eventstream-proxy/eventstream-proxy.base.ts:104-106 | with one namespace and one outstanding batch, deliveries and verdicts strictly alternate, each verdict for the last delivery, and every client ack is answered |
| ProxyOneBatch.SettledBeforeNext | src/eventstream-proxy/eventstream-proxy.base.ts:104-106 | in that setting exactly one verdict concerns a message that was followed by another, and it came between the two |
| ProxyOneBatch.HolderLeaves | src/eventstream-proxy/eventstream-proxy.base.ts:135-151 | in that setting the holder's disconnect issues exactly one nack, for the message it holds, and any other disconnect none |
| ProxyOneBatch.TurnAfterLeaving | src/eventstream-proxy/eventstream-proxy.base.ts:135-160 | a holder's departure ends its turn and frees the upstream, any other departure changes neither |
| ProxySockets.SocketsExactIff | src/eventstream-proxy/eventstream-proxy.base.ts:99-111 | after any run the open sockets are exactly the registered ones if and only if no start ever replaced a registered socket |
| ProxySockets.SocketsExactWithoutOverlap | src/eventstream-proxy/eventstream-proxy.base.ts:99-118 | if starts of one namespace never overlap, open and registered sockets are the same |
| ProxySockets.DisconnectLive | src/eventstream-proxy/eventstream-proxy.base.ts:153-158 | a disconnect closes exactly the registered sockets of namespaces it leaves without clients |
| ProxyLatest.LatestAlways | src/eventstream-proxy/eventstream-proxy.base.ts:99-160 | in every run, however starts overlap, the socket registered for a namespace is the one opened last for it, and every ack, nack and close goes to the socket opened last for its namespace |
| ProxyWitnesses.SecondNamespaceNotNacked | src/eventstream-proxy/eventstream-proxy.base.ts:139-151 | a run in which a client leaves holding a message and no verdict is issued |
| ProxyWitnesses.FirstAckNotAnswered | src/eventstream-proxy/eventstream-proxy.base.ts:246-247 | a run in which an accepted ack is not passed upstream |
| ProxyWitnesses.ImpatientClientSwallows | src/eventstream-proxy/eventstream-proxy.base.ts:94-118 | an instance: a client leaves during its own start, and a batch ends in the list of a client that is gone, for good |
| ProxyWitnesses.OverlappingStartsLeak | src/eventstream-proxy/eventstream-proxy.base.ts:99-111 | a run in which two starts of one namespace overlap: the second socket is registered, the first stays open |
| Enrichment.Enricher.GetSubscriptionName | src/eventstream-proxy/eventstream-proxy.base.ts:208-224 | a name is remembered once found; failures and unknown ids are not |
| Enrichment.Enricher.ProcessEvents | src/eventstream-proxy/eventstream-proxy.base.ts:166-206 | the loops compute the in-order message, or none, and the names known afterwards |
| Enrichment.NamesStable | src/eventstream-proxy/eventstream-proxy.base.ts:208-224 | a known name is never replaced, and all events of a subscription get its one name |
| Enrichment.HandlersInOrder | src/eventstream-proxy/eventstream-proxy.base.ts:169-183 | handlers are ordered by event and then by listener, each with its own event and name |
| Enrichment.HandlerCount | src/eventstream-proxy/eventstream-proxy.base.ts:169-183 | every event is handled by every listener, once |
| Enrichment.CollectedInOrder | src/eventstream-proxy/eventstream-proxy.base.ts:185-195 | each handler that gives a message has it in the batch message, in the handlers' order, whatever other handlers do |
| Enrichment.OneEach | src/eventstream-proxy/eventstream-proxy.base.ts:185-195 | and there are no other messages in it |
| Enrichment.ProcessedTells | src/eventstream-proxy/eventstream-proxy.base.ts:196-205 | the batch message carries the namespace and the number of its batch |
| Enrichment.AlwaysOnTrack | src/eventstream-proxy/eventstream-proxy.base.ts:166-206 | in every schedule the head task has done a prefix of its sequential work |
| Enrichment.ScheduleIndependent | src/eventstream-proxy/eventstream-proxy.base.ts:90-206 | whatever the order in which promises settle, what has been sent is what processing the finished batches one by one sends, in arrival order |
| Enrichment.SchedulesAgree | src/eventstream-proxy/eventstream-proxy.base.ts:185-205 | of two schedules of the same arrivals one's messages start with the other's |
| Enrichment.NeverStuck | src/eventstream-proxy/eventstream-proxy.base.ts:185-195 | an unfinished batch always has a possible step, so a quiet state has processed all batches |
| Enrichment.UnsentIff | src/eventstream-proxy/eventstream-proxy.base.ts:171-175 | a batch is dropped if and only if some event has no subscription name, remembered or found |
| MethodTables.TablesWellTyped | src/tokens/erc20.ts:135-247 | each of the tables' entries builds parameters of its own signature, with the request's quantity, data and URI in the inputs meant for them |
| MethodTables.AmountChecked | src/tokens/erc721.ts:379-383 | no nonfungible entry accepts an amount other than one |
| AbiMapper.SignatureMatch | src/tokens/abimapper.service.ts:143-153 | true exactly if name, number of inputs and every input type agree |
| AbiMapper.GetAllMethods | src/tokens/abimapper.service.ts:155-165 | the nested loops collect, signature by signature, the matching methods in ABI order |
| AbiMapper.AllMethodsIff | src/tokens/abimapper.service.ts:155-165 | a method is collected exactly if it is in the ABI and some signature matches it |
| AbiMapper.AllMethodsCount | src/tokens/abimapper.service.ts:155-165 | and as often as it is in the ABI, once for each signature that matches it |
| AbiMapper.GetMethodAndParams | src/tokens/abimapper.service.ts:167-180 | the nested loops with early return compute the search's result |
| AbiMapper.ChoiceIsFirst | src/tokens/abimapper.service.ts:167-180 | the result comes from the least pair of signature priority and ABI position that matches with defined parameters or refuses; nothing if there is none |
| MethodChoice.FungibleApproval | src/tokens/erc20.ts:136-157 | read off the ABI: which approve method serves, with which allowance; otherwise unserved, never refused |
| MethodChoice.FungibleBurn | src/tokens/erc20.ts:159-196 | which burn method serves, in which order, the one without holder only for the holder itself; never refused |
| MethodChoice.FungibleMint | src/tokens/erc20.ts:198-215 | which mint method serves; never refused |
| MethodChoice.FungibleTransfer | src/tokens/erc20.ts:217-247 | which transfer method serves, in which order, the one without sender only for the holder itself; never refused |
| MethodChoice.TokenApproval | src/tokens/erc721.ts:170-223 | which method serves an approval of one token, to whom; never refused |
| MethodChoice.OperatorApproval | src/tokens/erc721.ts:170-223 | which method serves an approval for all tokens; never refused |
| MethodChoice.NonfungibleBurn | src/tokens/erc721.ts:225-253 | which burn method serves, and that a request is refused exactly if there is one and the amount is not one |
| MethodChoice.NonfungibleTransfer | src/tokens/erc721.ts:348-377 | which transfer method serves, and that a request is refused exactly if there is one and the amount is not one |
| MethodChoice.NonfungibleMint | src/tokens/erc721.ts:255-346 | which of the nine mints serves with which parameters, and exactly which requests it refuses |
| MethodChoice.UriMintDecides | src/tokens/erc721.ts:255-275 | if the ABI has `mintWithURI(address,bytes,string)`, it serves every mint of one token without an index and refuses all others |
| AbiMapper.ChosenFits | src/tokens/abimapper.service.ts:100-115 | the parameters fit the chosen method's own inputs, and that method is among those subscriptions are registered with |
| AbiMapper.NothingLost | src/tokens/erc721.ts:255-346 | a nonfungible request is never compiled to a method that would lose its URI, index or amount |
| AbiMapper.DataDroppedOnlyIf | src/tokens/abimapper.service.ts:167-180 | a request's data is dropped only if no method of the ABI that could serve the request carries data |
| AbiMapper.CheckedInterfaceSuffices | src/tokens/tokens.service.ts:439-456 | choosing from the interface `checkInterface` reports gives the same method, parameters and refusals as choosing from the full ABI |
| Calls.SentEntry | src/tokens/tokens.service.ts:458-482 | a call that reaches the chain is a table entry with the values its parameters denote |
| Calls.DataComesBack | src/tokens/tokens.util.ts:29-43 | if the bytes input is the one named `data`, an event's input data decodes to the request's data |
| Calls.TextReturnsIff | src/tokens/erc20.ts:135-247 | of all the texts a quantity may be sent as, exactly plain decimal numerals are what events say |
| Calls.SameAddressIff | src/tokens/tokens.service.ts:458-482 | two texts denote one address exactly if they agree digit by digit, whatever the case |
| Calls.GreatestUint256 | src/tokens/erc20.ts:27 | the unlimited allowance is 2^256 - 1 |
| Calls.SpellingServesIff | src/tokens/erc20.ts:169-236 | which table entries serve a request depends on how its addresses are spelled exactly if signer and holder are one address in two spellings, and then only the entry for the holder alone does |
| Erc20.ERC20WithData.MintWithData | samples/solidity/contracts/ERC20WithData.sol:37-43 | the ledger and event of an owner's mint, or no change; it succeeds exactly for the owner, a receiver and a supply that stays below 2^256 |
| Erc20.ERC20WithData.TransferWithData | samples/solidity/contracts/ERC20WithData.sol:45-56 | a direct transfer for the holder itself, leaving allowances alone, otherwise one through the allowance, or no change; it succeeds exactly if the balance, and for others the allowance, covers the amount |
| Erc20.ERC20WithData.BurnWithData | samples/solidity/contracts/ERC20WithData.sol:58-61 | a burn of the caller's own tokens, or no change; it succeeds exactly if the caller names itself and its balance covers the amount |
| Erc20.ERC20WithData.ApproveWithData | samples/solidity/contracts/ERC20WithData.sol:63-69 | the new allowance, replacing the old, or no change; it succeeds exactly between addresses that are not zero |
| Erc20Meaning.ExecutedMeans | src/tokens/erc20.ts:135-247 | whatever method was found, a successful request moves exactly the requested value between the requested holders (or sets the allowance) and emits the one event that says so; anyone but the holder needed, and used up, an allowance |
| Erc20Meaning.MethodIndependent | src/tokens/erc20.ts:159-246 | the same request through two different ABIs, both succeeding, ends in the same balances, supply, event and allowances, but for one the signer gave itself |
| Erc20Meaning.SpellingIndependent | src/tokens/erc20.ts:135-247 | a request and the same request in canonical spelling, both succeeding, do the same |
| Erc20Meaning.HolderOnly | src/tokens/erc20.ts:169-236 | `transfer` and one-argument `burn` report the requested holder exactly if the signer is that holder |
| Succeeds20.TransferSucceedsIff | src/tokens/erc20.ts:217-247 | a transfer request is compiled, sent and succeeds exactly if it is signed and well formed, the holder's balance covers it, and the method serving it lets the signer do it |
| Succeeds20.TransferWithDataDone | samples/solidity/contracts/ERC20WithData.sol:45-56 | the holder's own call needs and uses no allowance, anyone else's needs one that covers the amount |
| Succeeds20.BurnSucceedsIff | src/tokens/erc20.ts:159-196 | the same for burns |
| Succeeds20.MintSucceedsIff | src/tokens/erc20.ts:198-215 | a mint request succeeds exactly if the contract's owner signs it, it is well formed, the supply can take it, and there is a method |
| Succeeds20.ApprovalSucceedsIff | src/tokens/erc20.ts:136-157 | an approval request succeeds exactly if it is signed, names a spender and a readable allowance if any, and there is a method |
| Erc721.ERC721WithData.MintWithData | samples/solidity/contracts/ERC721WithData.sol:46-50 | the owner's mint takes the next index, advances it and stores the URI made of base and index, or no change; it succeeds exactly for the owner, a receiver and a free index |
| Erc721.ERC721WithData.MintWithURI | samples/solidity/contracts/ERC721WithData.sol:52-67 | the same, and the URI stored is the given one unless that is empty |
| Erc721.ERC721WithData.TransferWithData | samples/solidity/contracts/ERC721WithData.sol:69-76 | the token leaves `from` and loses its approval, or no change; it succeeds exactly if `from` holds it and the caller may move it |
| Erc721.ERC721WithData.BurnWithData | samples/solidity/contracts/ERC721WithData.sol:78-81 | the token is destroyed whoever held it, or no change; it succeeds exactly if the caller named itself and the token exists |
| Erc721.ERC721WithData.ApproveWithData | samples/solidity/contracts/ERC721WithData.sol:83-85 | the token's approval, or no change; it succeeds exactly for its holder or the holder's operator |
| Erc721.ERC721WithData.SetApprovalForAllWithData | samples/solidity/contracts/ERC721WithData.sol:87-93 | the caller's operator is added or removed; the zero address is refused |
| Erc721Meaning.ExecutedMeans | src/tokens/erc721.ts:169-377 | whatever method was found, a successful request has done to the named (or next) token what it asked, stored its URI, with the right to do so, and emitted the one event that says so; a burn may instead rest on the signer naming itself |
| Erc721Meaning.MethodIndependent | src/tokens/erc721.ts:169-377 | the same request through two different ABIs, both succeeding, ends in the same contract state, URIs included, and event |
| Erc721Meaning.SpellingIndependent | src/tokens/erc721.ts:169-377 | a request and the same request in canonical spelling, both succeeding, end in the same state and event |
| Succeeds721.TransferSucceedsIff | src/tokens/erc721.ts:348-377 | a transfer request succeeds exactly if it is signed and well formed, for one token that `from` holds and the signer may move, and there is a method |
| Succeeds721.BurnSucceedsIff | src/tokens/erc721.ts:225-253 | a burn request succeeds exactly if it is signed and well formed, for one existing token, and the method serving it lets the signer burn it |
| Succeeds721.MintSucceedsIff | src/tokens/erc721.ts:255-346 | a mint request succeeds exactly if the contract's owner signs it, a method serves it, and the index, its own or the contract's next, is free |
| Succeeds721.ApprovalSucceedsIff | src/tokens/erc721.ts:170-223 | an approval request succeeds exactly if it is signed and well formed, by the token's holder or its operator if it names a token, and there is a method |
| Listener.TransformTransferEvent | src/tokens/tokens.listener.ts:177-249 | the branches and assignments compute the mint, burn or transfer message with its token URI and its `blockchain` block, nothing, or a rejection |
| Listener.TransformApprovalEvent | src/tokens/tokens.listener.ts:251-311 | the reassignments compute the approval message of a fungible or nonfungible pool with its `blockchain` block, nothing, or a rejection; any numeral `BigInt` reads is a value |
| Listener.GetTokenUri | src/tokens/tokens.listener.ts:79-91 | the contract's answer, or no text if the query fails |
| Listener.OriginNames | src/tokens/tokens.listener.ts:108-118 | the `blockchain` block of a message has the event's name exactly if the trimmed signature starts with it, but for an approval for all tokens exactly if the signature as it arrived does |
| MessageIds.MessageId | src/tokens/tokens.listener.ts:93-106 | every message, whatever it reports, has the id made of the block, transaction and log of its event, in the message and in its `blockchain` block |
| MessageIds.MessagesSortLikeChain | src/tokens/tokens.listener.ts:93-106 | sorting messages by id is sorting them by the position of their events on the chain |
| MessageIds.MessageTells | src/tokens/tokens.listener.ts:177-357 | every other field of the `blockchain` block is the event's own |
| MessageIds.EmittedIff | src/tokens/tokens.listener.ts:63-77 | exactly which events lead to a message |
| MessageIds.ApprovedFlag | src/tokens/tokens.listener.ts:268-273 | a fungible approval is approved exactly if its value is a positive number, in any numeral; without a value it is not |
| EventSignatures.SubscribedIff | src/tokens/tokens.listener.ts:48-51 | the names of the signatures the listener reports are the event names pools subscribe to, and the one of factories is the one the migration check skips |
| Listener.NothingTrimmed | src/tokens/tokens.listener.ts:112-118 | a signature without a colon, or with one in front, stays as it is |
| Listener.Dispatched | src/tokens/tokens.listener.ts:63-77 | each token event, with or without a prefix to its signature, reaches its own transform |
| Listener.TrimPrefixed | src/tokens/tokens.listener.ts:112-118 | a nonempty colon-free prefix is all that is trimmed from a signature |
| Listener.NobodyDropped | src/tokens/tokens.listener.ts:185-188 | a transfer from the zero address to itself leaves no message |
| RoundTrip20.RequestReadsBack | src/tokens/tokens.listener.ts:177-311 | compile, execute, decode: the message is the request, with kind, addresses in canonical spelling, amount, signer, pool, data and origin, however the connector reads quantities |
| RoundTrip20.ApprovedReadsBackIff | src/tokens/erc20.ts:143-144 | the approved flag comes back if and only if the request did not approve a named allowance that is read as zero |
| RoundTrip20.AmountReadsBackIff | src/tokens/erc20.ts:163-246 | the amount of a successful request comes back as the same text if and only if that is plain decimal |
| RoundTrip20.ZeroAllowances | src/tokens/erc20.ts:143-144 | `0`, `00` and `0x0` are all read as zero where numerals are read as `BigInt` does |
| RoundTrip721.RequestReadsBack | src/tokens/tokens.listener.ts:177-357 | the same for nonfungible requests: the index named or assigned, amount one, the token's URI, and the three kinds of approval message |
| RoundTrip721.UriReadsBack | src/tokens/tokens.listener.ts:222-230 | if the contract answers with what it stored, a mint's message names the URI of the request, or the one made of base and index |
| RoundTrip721.ReadsBackIff | src/tokens/erc721.ts:169-395 | the named index comes back as the same text exactly if it is plain decimal, the amount always, a burn's holder exactly if it held the token, the approved flag exactly unless the zero address was approved |
| Replay20.MessagesRefineLogs | src/tokens/tokens.listener.ts:177-249 | for every sequence of logs, each delivered under any subscription of a fungible pool, balances kept from the messages equal balances kept from the logs |
| Replay20.TotalIsMintedLessBurned | src/tokens/tokens.listener.ts:233-248 | the sum of all balances kept is what was minted less what was burned |
| Replay20.ClientsMirrorTheLedger | samples/solidity/contracts/ERC20WithData.sol:27-70 | after any calls on a fresh contract, a client has every ledger balance, and minted less burned is the ledger's supply |
| Replay721.ConsumesLogIff | src/tokens/tokens.listener.ts:185-248 | one message says what its log says, except exactly when the log un-owns an owned token from nobody to nobody |
| Replay721.MessagesRefineLogs | src/tokens/tokens.listener.ts:177-249 | for every sequence of logs that start at the token's owner, each delivered under any subscription of a nonfungible pool, owners kept from the messages equal owners kept from the logs |
| Replay721.ClientsMirrorTheLedger | samples/solidity/contracts/ERC721WithData.sol:24-93 | after any calls on a fresh contract, a client has every token's owner |
| Utf8.RoundTrip | src/tokens/tokens.util.ts:30-41 | decoding the UTF-8 encoding of a string gives the string |
| Hex.DataRoundTrip | src/tokens/tokens.util.ts:26-43 | `decodeHex(encodeHex(s))` is s for every string but the single null character, which reads as empty |
| Hex.EncodeHexInjective | src/tokens/tokens.util.ts:29-35 | two texts share an encoding only if equal or the two ways to say no data |
| TextForms.DataText | src/tokens/tokens.util.ts:29-35 | the text is `0x` and two lower-case digits for each UTF-8 byte, `0x00` if there is none |
| TextForms.HexStops | src/tokens/tokens.util.ts:40-43 | hex is read up to the first pair that is not two digits |
| TextForms.TruncatedReads | src/tokens/tokens.util.ts:40-43 | text in front of a character cut short is read, the rest as one replacement character |
| TextForms.StrayByte | src/tokens/tokens.util.ts:40-43 | a byte that starts no character reads as one replacement character, and reading goes on behind it |
| Percent.ComponentRoundTrip | src/tokens/tokens.util.ts:45-60 | `decodeURIComponent` undoes `encodeURIComponent` |
| Percent.FormRoundTrip | src/tokens/tokens.util.ts:83-100 | decoding a form-encoded name or value gives it back |
| TextForms.CharText | src/tokens/tokens.util.ts:45-90 | which characters each encoding leaves alone, and the text of all others |
| TextForms.TextInOrder | src/tokens/tokens.util.ts:45-90 | a text is encoded character by character, in order |
| Escapes.ComponentIff | src/tokens/tokens.util.ts:52-60 | on every text, `decodeURIComponent` returns a string exactly if the escapes are whole and the bytes they stand for are its UTF-8; otherwise it throws |
| TextForms.StrayPercent | src/tokens/tokens.util.ts:95-104 | in a query string, a percent sign that starts no octet stands for itself |
| Numerals.BigIntRoundTrip | src/tokens/tokens.listener.ts:97-106 | reading an integer's decimal text gives the integer |
| Numerals.CanonicalIff | src/tokens/tokens.listener.ts:97-106 | a digit string is the text written for its value exactly if it has no redundant leading zero |
| Numerals.PrefixedReads | src/tokens/tokens.listener.ts:97-106 | numerals in base 16, 8 and 2 read as their numbers |
| Numerals.LeadingZeros | src/tokens/tokens.listener.ts:97-106 | leading zeros do not matter |
| Numerals.SpacesIgnored | src/tokens/tokens.listener.ts:97-106 | nor does white space around a numeral |
| Numerals.PlusReads | src/tokens/tokens.listener.ts:97-106 | nor a plus sign |
| Names.NameParsesBackIff | src/tokens/tokens.util.ts:45-75 | a packed subscription name parses back, pool data present, empty or absent, if and only if locator and event have no colon |
| Names.NamesDistinct | src/tokens/tokens.util.ts:45-50 | packing is injective on colon-free locators and events and any pool data |
| Names.LocatorParsesBack | src/tokens/tokens.util.ts:83-104 | every locator survives the query string, which never contains a colon |
| Names.LegacyLocatorParses | src/tokens/tokens.util.ts:95-104 | locators with the former key read the same |
| Names.PoolNameParsesBack | src/tokens/tokens.util.ts:45-104 | from a subscription name back to address, schema, type, event and pool data |
| TextForms.LocatorText | src/tokens/tokens.util.ts:83-90 | the locator's three fields in their order, each encoded as a form does |
| TextForms.NameText | src/tokens/tokens.util.ts:45-50 | prefix, locator, event and encoded pool data, joined by colons |
| TextForms.NameParts | src/tokens/tokens.util.ts:52-75 | how names of any number of parts are read; only with four does the prefix matter |
| TextForms.SchemaPreferred | src/tokens/tokens.util.ts:95-104 | the schema key is preferred to its former name |
| TextForms.QueryNoise | src/tokens/tokens.util.ts:95-104 | a question mark in front and empty fields do not matter |
| EventIds.IdsDistinct | src/tokens/tokens.listener.ts:97-106 | an id determines block, transaction and log index, whatever their size |
| EventIds.IdText | src/tokens/tokens.listener.ts:97-106 | twelve digits, six and six with slashes between, of these values, while they fit |
| EventIds.IdsSortLikeChain | src/tokens/tokens.listener.ts:97-106 | while parts fit their width, text order of ids is chain order |
| EventIds.SortsLikeChainIff | src/tokens/tokens.listener.ts:97-106 | ids below some bounds sort like the chain if and only if the bounds are at most 10^12 blocks, 10^6 transactions and 10^6 logs |
| EventIds.WideBlocksMisorder | src/tokens/tokens.listener.ts:101-105 | past 12 digits block numbers break the order, at every power of ten, whatever the indexes |
| EventIds.WideTransactionsMisorder | src/tokens/tokens.listener.ts:101-105 | past 6 digits transaction indexes do |
| EventIds.WideLogsMisorder | src/tokens/tokens.listener.ts:101-105 | past 6 digits log indexes do |
| Subscriptions.Activated | src/tokens/tokens.service.ts:331-383 | for every interleaving, of overlapping activations too unless a name they share is missing, each name is on the stream once if it was missing and as often as before otherwise; the store only grew, by those names |
| Subscriptions.ActivatedAgain | src/event-stream/event-stream.service.ts:310-336 | activating again, in any number of overlapping activations, changes nothing at any moment |
| Subscriptions.FindsFirst | src/event-stream/event-stream.service.ts:320-322 | the subscription found is the first of that name on that stream |
| Subscriptions.Deactivated | src/tokens/tokens.service.ts:403-437 | for every interleaving, of overlapping deactivations too unless a name they share is there, no deletion fails, each name is there once less, nothing else changes, and not found is reported if and only if none was there |
| Subscriptions.AlwaysOnceIff | src/event-stream/event-stream.service.ts:310-336 | every interleaving leaves each name on the stream once if it was missing and as often as before otherwise, if and only if every repeated name was there before |
| Subscriptions.NeverFailsIff | src/event-stream/event-stream.service.ts:338-352 | no interleaving makes a deletion fail if and only if no repeated name was there before |
| Subscriptions.ActivatedThenDeactivated | src/tokens/tokens.service.ts:331-437 | activation and then deactivation leaves every other subscription as it was and none of the pool's |
| Subscriptions.PoolNamesDistinct | src/tokens/tokens.service.ts:345-382 | the names of a pool differ for every locator and pool data |
| Subscriptions.PoolNamesParse | src/tokens/tokens.service.ts:313-382 | a pool has names exactly if its locator is valid, one for each event of its type, and they parse back to locator, event and pool data |
| Subscriptions.OverlappingActivationsDuplicate | src/event-stream/event-stream.service.ts:320-336 | two activations of one pool at once can leave any name that was missing on the stream at least twice, whatever else is there |
| Migration.MigrationCheck | src/tokens/tokens.service.ts:135-204 | only the stream of the plain topic name matters; the first unparseable name on it decides; if all parse, the check warns exactly if, counted over the whole store, some pool on that stream has an invalid locator or not exactly one subscription for each of its events |
| Migration.OfStreamCounts | src/tokens/tokens.service.ts:142 | the filter keeps each subscription of the stream as often as it is there, and no other |
| Migration.OfStreamInOrder | src/tokens/tokens.service.ts:142 | and in the same order |
| Migration.VerdictOverStore | src/tokens/tokens.service.ts:148-203 | the verdict over the filtered list is the verdict over the store |
| Migration.CheckSubscriptions | src/tokens/tokens.service.ts:148-203 | grouping in an insertion-ordered map and comparing lengths and inclusion gives that verdict |
| Migration.KeysSeparatePools | src/tokens/tokens.service.ts:163-169 | two subscriptions share a group exactly if locator and decoded pool data agree |
| Migration.Pigeonhole | src/tokens/tokens.service.ts:191-194 | equal length and inclusion of the expected events hold exactly if the lists are permutations |
| Migration.GroupsJudgePools | src/tokens/tokens.service.ts:172-203 | judging the groups of the map is judging the pools |
| Retry.RetryableCall | src/tokens/blockchain.service.ts:132-158 | the loop ends with the first decisive call within the limit, or after every allowed one, with the pauses the formula gives |
| Retry.RunWithinLimit | src/tokens/blockchain.service.ts:132-158 | min(k+1, n+1) calls; on exhaustion the count reported is the calls made, and otherwise the result is the last call's own success or failure |
| Retry.PausesBounded | src/tokens/blockchain.service.ts:120-127 | pauses are capped, and do not shrink for a factor of at least one |
| Retry.PausesBackOff | src/tokens/blockchain.service.ts:120-127 | each pause is the factor times the one before, until the limit is reached |
| Retry.PauseIs | src/tokens/blockchain.service.ts:120-127 | pause i is initial times factor to the i, until the limit is reached |
| Retry.TotalPauseUnderLimit | src/tokens/blockchain.service.ts:120-127 | all pauses together are at most n+1 times the limit |
| Retry.TotalPauseUnderGeometric | src/tokens/blockchain.service.ts:120-127 | and at most the geometric sum |
| Retry.GeometricClosed | src/tokens/blockchain.service.ts:121-125 | that sum in closed form |
| Retry.UnlimitedRun | src/tokens/blockchain.service.ts:136-139 | with -1 the call ends with the first decisive answer and all pauses are equal |
| Retry.NoCalls | src/tokens/blockchain.service.ts:136-157 | a limit below -1 makes no call and reports zero attempts |
| InterfaceCache.AbiMapperService.SupportsInterface | src/tokens/abimapper.service.ts:207-227 | the answer is that the chain says `true`, cached or not, and the cache stays in agreement whatever it forgets |
| InterfaceCache.AbiMapperService.GetTokenSchema | src/tokens/abimapper.service.ts:73-98 | equals the uncached schema |
| InterfaceCache.AbiMapperService.GetAbi | src/tokens/abimapper.service.ts:122-141 | equals the uncached ABI, unknown schemas refused |
| InterfaceCache.FirstSupportedVersion | src/tokens/abimapper.service.ts:79-137 | a nonfungible contract gets the ABI of the first version it supports in the order V2, V1b, V1a, and the configured plain one exactly if it supports none |
| InterfaceCache.FungibleAbi | src/tokens/abimapper.service.ts:91-137 | a fungible contract gets the ABI with data exactly if it says it supports data, and otherwise the configured plain one |
| InterfaceCache.SchemaNames | src/tokens/abimapper.service.ts:73-98 | which schema a contract gets, for every combination of interfaces it supports |
| InterfaceCache.AbiMapperService.Configure | src/tokens/abimapper.service.ts:68-71 | sets the two legacy flags and leaves the cache alone |
| InterfaceCache.CacheHoldsLatest | src/tokens/abimapper.service.ts:207-227 | for any interleaving and any answers over time, a cached value is the latest answer stored for that contract and interface |
| InterfaceCache.CacheAgrees | src/tokens/abimapper.service.ts:207-227 | with a chain that keeps its word, every interleaving leaves a cache that agrees with it |

## Left out

- HTTP, websockets, NestJS wiring, TLS, headers, logging, health checks, request ids, controllers and receipt broadcast.
- `EventStreamSocket` beyond ack, nack and close: its frames appear in the log of `ProxyState`; ping, pong and reconnect timers are not modelled.
- JSON text: handlers start from parsed messages, and an ack carries an id. That a client was replied to with `started` is an out-parameter and not in the log.
- The loop that walks the client set to a random index in `send`: the chosen client is a parameter. The order of a client set is not modelled.
- Pool creation: the listener's branch for it queries the contract and is named `PoolCreated` here; `createPool`, `getCreateMethodAndParams`, `getStream` and its cache are not modelled.
- How the blockchain connector reads quantities is a parameter, because its code is elsewhere. An event's numbers are taken to be written in plain decimal, as it sends them.
- Transactions from the zero address.
- Erc721.ERC721WithData.MintWithData: does not model a receiver contract that refuses the token, because that contract's code is elsewhere; a refused call changes nothing, like any other that reverts.
- Erc721.ERC721WithData.MintWithURI: likewise.
- Erc721.ERC721WithData.TransferWithData: likewise.
- OpenZeppelin's contracts are represented by their effect on balances, allowances, owners, approvals and operators; gas, the view that puts the base before a stored token URI, and overloads the tables do not use are not modelled. The two-argument `burn` of older sample contracts is taken to require that the caller names itself, as `burnWithData` does.
- ERC721 balances, which the connector never reads.
- Creation of subscriptions with their ABI, address and first block: only id, name and stream matter for finding them again. Two streams with one name are not distinguished beyond the first.
- The branch of `migrationCheck` for an empty list of expected events, which cannot be taken.
- Retry conditions are an arbitrary classification of answers instead of a regular expression, and pauses are real numbers.
- The limit of 500 entries and the recency order of the interface cache: any entry may be forgotten when one is stored. The interface check of the token factory belongs to pool creation.
