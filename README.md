# Incognito beacon instruction pipeline: a Dafny model

This project models the deterministic core of the Incognito chain's beacon
producer and several small rule sets around it:

- the collection, grouping and ordering of stateful shard actions into beacon
  instructions (issuing first, then AMM trades by fee per amount sold,
  withdrawals and contributions, then the four portal stages, then header
  relaying by ascending external block height);
- the bridge's per-token aggregation of issue, contract and burn instructions
  into one signed net update per token;
- the header-relaying instruction producer;
- the portal v4 shielding processor and the portal orchestration (stages
  behind feature flags);
- the committee swap rule v3 (slashing, normal swap-out, swap-in);
- the portal database helpers (keys, reward lists, exchange-rate conversion);
- the committee check on a block's validation indices;
- the sync pool utilities (list differences, children lookup, longest chain,
  batch insertion);
- small chain helpers (shard IDs, the length prefix, wanted shards, relay
  shards, portal parameters by height);
- the metadata validators of relaying headers, redemption from the
  liquidation pool, v4 shielding requests and withdraw-reward responses.

Collaborators the code calls but does not define become function-typed
parameters:

- the state database and its registries;
- the base64, JSON and base58 codecs;
- the header-chain verifier;
- the aggregate BLS verifier;
- the portal proof parser and the per-token processors;
- the instruction builders of each action family.

Go map iteration order is unspecified, so results that depend on it are
stated as maps or sets. SyncUtils.GetAllViewFromHash, whose result is a
list, takes the map's order as a parameter (`keys`).

One module per source file; shared pieces live in `Common` (uint64 and
int64 arithmetic, `strconv`), `Grouping` (grouping by shard and the walk over
shards in ascending order), `Sorting` (an in-place insertion sort standing in
for `sort.Slice`, string order) and `MetaBase` (the action encoding shared by
the metadata types).

## Model

| member | source | states |
|---|---|---|
| Common.AddU64 | blockchain/beaconbridgeprocess.go:116-118 | uint64 addition wraps modulo 2^64 and stays in range |
| Common.SubU64 | syncker/utils.go:52-60 | uint64 subtraction wraps modulo 2^64 and stays in range |
| Common.ToInt64 | blockchain/beaconstatefulinsts.go:299-312 | Go's int64 cast of a uint64: values from 2^63 on read as negative |
| Common.ToByte | blockchain/blockchain.go:756-767 | Go's byte(n) keeps the low 8 bits of n, for negative n too |
| Common.Atoi | blockchain/beaconstatefulinsts.go:30-34 | strconv.Atoi: an optional sign and at least one digit, within int64; an error otherwise |
| Common.ItoaAtoi | blockchain/beaconstatefulinsts.go:30-34 | the decimal text of any int64 parses back to it |
| Common.AtoiNeedsDigit | blockchain/beaconstatefulinsts.go:26-34 | a string without a digit never parses as an integer |
| Common.ItoaInjective | database/lvdb/portal.go:133-138 | different integers have different decimal texts |
| Common.NatToDecDigits | database/lvdb/portal.go:666-670 | the decimal text of a height is all digits and reads back as the height |
| Grouping.GroupByShard | blockchain/beaconstatefulinsts.go:55-67 | the action joins the end of its shard's list; every other shard's list is unchanged |
| Grouping.GroupBySpec | blockchain/beaconstatefulinsts.go:391-403 | each group is exactly the subsequence of the stream with its key, in stream order |
| Grouping.GroupThenFlatten | blockchain/beaconstatefulinsts.go:111-186 | grouping a shard-ordered stream and walking the shards in ascending order gives back the stream |
| Grouping.FlattenIsShardOrdered | blockchain/beaconstatefulinsts.go:111-186 | the walk over a map of shard lists never goes down in shard |
| Grouping.SortedShardsSpec | blockchain/beaconstatefulinsts.go:111-118 | the shard walk visits every key of the map once, strictly ascending |
| Grouping.SortedShardsAddTop | blockchain/beaconstatefulinsts.go:111-118 | adding a key above all others appends it to the walk |
| Grouping.FlattenAddTop | blockchain/beaconstatefulinsts.go:111-186 | appending to the highest shard's list extends the walk at its end |
| Grouping.FilterAppend | blockchain/beaconstatefulinsts.go:17-53 | filtering distributes over concatenation |
| Grouping.FilterMember | blockchain/beaconstatefulinsts.go:17-53 | an element survives the filter iff it occurs and passes |
| Grouping.FilterMultiset | blockchain/beaconstatefulinsts.go:17-53 | the filter keeps each passing occurrence and drops the rest |
| Grouping.FilterPairwise | blockchain/beaconstatefulinsts.go:17-53 | a relation between earlier and later elements survives filtering (order is kept) |
| Grouping.ConcatGroupsKeepsKeyOrder | blockchain/beaconstatefulinsts.go:282-315 | concatenating groups in key-list order keeps each key's subsequence of the stream |
| Grouping.ConcatGroupsOrdered | blockchain/beaconstatefulinsts.go:282-315 | items of listed groups come in the order of their keys in the list |
| Grouping.ConcatGroupsSplit | blockchain/beaconstatefulinsts.go:282-315 | splitting the key list by a test splits the items into two parts holding the same items |
| Grouping.ConcatGroupsPermutes | blockchain/beaconstatefulinsts.go:282-315 | concatenated groups over all keys are a permutation of the stream |
| Sorting.InsertionSort | blockchain/beaconstatefulinsts.go:299-312 | the array ends sorted under the comparator and is a permutation of its old contents |
| Sorting.InsertOne | blockchain/beaconstatefulinsts.go:299-312 | inserting a[i] into the sorted prefix keeps the multiset and sorts a[..i+1] |
| Sorting.SwapKeepsOrder | blockchain/beaconstatefulinsts.go:299-312 | one swap of the moving element keeps the rest of the prefix ordered |
| Sorting.SortedDistinctAscending | blockchain/blockchain.go:645-647 | a sorted list without repeats is strictly ascending |
| Sorting.KeysOf | blockchain/blockchain.go:641-644 | the collected keys are exactly the map's keys, each once |
| Sorting.SortDistinct | blockchain/blockchain.go:641-647 | the sorted keys are the same elements, strictly ascending |
| Sorting.LexLessTotal | blockchain/beaconstatefulinsts.go:281-285 | two different pool keys are ordered one way or the other |
| Sorting.LexStrictWeak | blockchain/beaconstatefulinsts.go:281-285 | the string order used for pool keys is a strict weak order |
| MetaBase.ReqAction | portal/metadata/relayingheader.go:126-139 | the action is the metadata type in decimal followed by the encoded action |
| StatefulInsts.CollectStatefulActions | blockchain/beaconstatefulinsts.go:17-53 | the loop's result is the filter of stateful actions over the input |
| StatefulInsts.CollectedActionsSpec | blockchain/beaconstatefulinsts.go:17-53 | the result holds exactly the stateful instructions, each as often as it occurs, in input order |
| StatefulInsts.CommitteeActionsNeverParse | blockchain/beaconstatefulinsts.go:26-34 | set/stake/swap/random/assign never parse as integers, so that check only saves work |
| StatefulInsts.StageOfMetaSpec | blockchain/beaconstatefulinsts.go:35-50 | an action is routed iff its type is one of the ten allow-listed types, to the family of that type |
| StatefulInsts.RunCalls | blockchain/beaconstatefulinsts.go:112-186 | the builder is called on each call in order and its successes are appended |
| StatefulInsts.RunAllFail | blockchain/beaconstatefulinsts.go:112-186 | a builder that never succeeds yields no instruction |
| StatefulInsts.RouteActions | blockchain/beaconstatefulinsts.go:112-186 | the first walk equals the routing specification over the shard-ordered stream |
| StatefulInsts.RouteStream | blockchain/beaconstatefulinsts.go:112-186 | issuing requests are built at once; other families are grouped per shard; relaying is queued |
| StatefulInsts.RouteAction | blockchain/beaconstatefulinsts.go:120-186 | one action goes to the family its type names, or nowhere |
| StatefulInsts.RouteGrouped | blockchain/beaconstatefulinsts.go:133-176 | a grouped-family action joins its shard's group; a relaying action joins the queue |
| StatefulInsts.RouteSpecFamilies | blockchain/beaconstatefulinsts.go:112-186 | each family's groups hold that family's actions per shard in stream order; relaying keeps stream order |
| StatefulInsts.GroupedFamilyOrder | blockchain/beaconstatefulinsts.go:190-236 | walking a family's groups in ascending shard order visits its actions in walk order |
| StatefulInsts.RoutedFamily | blockchain/beaconstatefulinsts.go:190-236 | what the first walk leaves for a family, walked shard by shard, is the family's actions in walk order |
| StatefulInsts.RunFamily | blockchain/beaconstatefulinsts.go:345-364 | one family's loop over its shards in ascending order runs that family's calls |
| StatefulInsts.HandlePdeInsts | blockchain/beaconstatefulinsts.go:318-388 | sorted trades, then withdrawals, then contributions, each through its builder |
| StatefulInsts.HandlePortalInsts | blockchain/beaconstatefulinsts.go:405-535 | custodian deposits, porting, ptoken requests, exchange rates, each shard by shard |
| StatefulInsts.HandleRelayingInsts | blockchain/beaconstatefulinsts.go:596-630 | relaying actions by ascending block height, arrival order within a height |
| StatefulInsts.BuildStatefulInstructions | blockchain/beaconstatefulinsts.go:69-237 | the output is issuing, then the PDE, portal and relaying handlers' output, at beaconHeight-1 (wrapping) |
| StatefulInsts.SchedulePhases | blockchain/beaconstatefulinsts.go:69-237 | the calls run in the fixed family order: issuing, trades, withdrawals, contributions, four portal stages, relaying |
| StatefulInsts.IssuingAndTradePhases | blockchain/beaconstatefulinsts.go:126-203 | issuing calls come before trades, and trades before withdrawals |
| StatefulInsts.PdeAndPortalPhases | blockchain/beaconstatefulinsts.go:190-220 | contributions come before custodian deposits, and those before porting requests |
| StatefulInsts.PortalAndRelayPhases | blockchain/beaconstatefulinsts.go:205-234 | ptoken requests come before exchange rates, and those before relaying |
| ActionSort.DecodeAll | blockchain/beaconstatefulinsts.go:255-266 | actions whose content does not decode are dropped; the others keep their order |
| ActionSort.GroupDecoded | blockchain/beaconstatefulinsts.go:246-276 | grouping decoded actions by key one at a time gives the grouping of the whole list |
| ActionSort.CrossTransitive | blockchain/beaconstatefulinsts.go:299-312 | cross-multiplied ratio comparison is transitive for positive denominators |
| ActionSort.FeeStrictWeak | blockchain/beaconstatefulinsts.go:299-312 | with positive int64 sell amounts the fee comparator is a strict weak order |
| ActionSort.FeeOrderExample | blockchain/beaconstatefulinsts.go:299-312 | a fee of 3 on 10 sold precedes a fee of 10 on 100 sold: order is by ratio, not fee |
| ActionSort.SortPdeTradeInstsByFee | blockchain/beaconstatefulinsts.go:239-316 | the result is TradeOrder of the decoded trades: live pools by key, each by fee ratio, then dead-pool trades |
| ActionSort.TradeOrderOf | blockchain/beaconstatefulinsts.go:282-315 | within one live pool, every earlier trade's ratio is at least every later one's |
| ActionSort.TradesPermuted | blockchain/beaconstatefulinsts.go:246-315 | the sorted trades are a permutation of the decoded ones |
| ActionSort.DeadPart | blockchain/beaconstatefulinsts.go:286-296 | the set-aside part holds only trades on missing or zero-reserve pools, in key order |
| ActionSort.DeadPairKept | blockchain/beaconstatefulinsts.go:286-296 | trades on a pool without liquidity keep their arrival order |
| ActionSort.SplitAndSortByFee | blockchain/beaconstatefulinsts.go:282-315 | the loop splits pair keys into live and dead and sorts each live pool's trades by fee |
| ActionSort.PlacePairTrades | blockchain/beaconstatefulinsts.go:286-314 | one pair's trades are set aside when the pool is dead, else sorted and kept |
| ActionSort.SortTradesByFee | blockchain/beaconstatefulinsts.go:298-312 | one pool's trades end sorted by ratio and are a permutation of the input |
| ActionSort.SortRelayingInstsByBlockHeight | blockchain/beaconstatefulinsts.go:553-594 | groups by height, and the distinct heights strictly ascending |
| ActionSort.GroupByHeight | blockchain/beaconstatefulinsts.go:561-587 | heights are listed once each, in order of first appearance, with their groups |
| ActionSort.RelayPermutes | blockchain/beaconstatefulinsts.go:575-627 | walking the groups by sorted height holds every decoded action once |
| ActionSort.RelayHeightsAscend | blockchain/beaconstatefulinsts.go:575-627 | along that walk, block heights never go down |
| ActionSort.RelayKeepsArrivalOrder | blockchain/beaconstatefulinsts.go:575-627 | the actions of one height keep their arrival order |
| Bridge.Apply | blockchain/beaconbridgeprocess.go:116-129 | an existing entry gains the amounts (wrapping) and keeps its identity; a missing one is created |
| Bridge.IssuingETHStep | blockchain/beaconbridgeprocess.go:84-130 | a four-field rejected instruction tracks its parsed request ID and counts nothing; a delta exists if and only if the instruction has four fields, is not rejected, decodes, and its ETH tx registers; it counts up the issued amount for the instruction's token, with its external token, not centralized |
| Bridge.IssuingStep | blockchain/beaconbridgeprocess.go:132-173 | a four-field rejected instruction tracks its parsed request ID; a delta exists if and only if the instruction has four fields, is not rejected and decodes; it counts up the deposited amount for the instruction's token, centralized |
| Bridge.ContractingStep | blockchain/beaconbridgeprocess.go:175-222 | nothing is tracked; a delta exists if and only if the instruction has four fields, is not rejected, decodes, and the centralized registry answers Ok(true) for its token; it deducts the burned amount from that token |
| Bridge.BurnAmount | blockchain/beaconbridgeprocess.go:240-246 | an ETH amount is the wei value divided by 10^9, exactly when that fits in 64 bits; any other amount is its value, exactly when it fits; in every case the result is congruent to that value modulo 2^64 (its low 64 bits) |
| Bridge.BurningStep | blockchain/beaconbridgeprocess.go:224-275 | nothing is tracked; a delta exists if and only if the instruction has at least eight fields, fields 2, 6 and 4 decode, and the decentralized registry answers Ok(true) for the hash of field 6; it deducts the burn amount of fields 2 and 4 from that token, with field 2 as the external token |
| Bridge.BridgeStep | blockchain/beaconbridgeprocess.go:35-53 | short instructions and other types are not bridge instructions |
| Bridge.Deltas | blockchain/beaconbridgeprocess.go:35-57 | the accepted deltas of a list of instructions, in order |
| Bridge.ApplyAllKeys | blockchain/beaconbridgeprocess.go:35-57 | a token has an entry iff some accepted instruction names it |
| Bridge.ApplyAllSums | blockchain/beaconbridgeprocess.go:116-118 | each entry's amounts are the sums of its accepted deltas modulo 2^64 |
| Bridge.NetUpdate | blockchain/beaconbridgeprocess.go:58-80 | "+" and the excess when counted up exceeds deducted, "-" the other way, 0 and "" when equal |
| Bridge.ProcessBridgeInstructions | blockchain/beaconbridgeprocess.go:33-82 | the fold over all instructions, then one write per token; the first failing write is returned |
| Bridge.WriteUpdates | blockchain/beaconbridgeprocess.go:58-80 | each visited token's net update is written; the first failure ends the loop |
| Bridge.StoreBurningConfirm | blockchain/beaconbridgeprocess.go:277-301 | every burning instruction's tx ID is stored with the height; a bad ID or failing write is the error |
| RelayingProducer.BuildHeaderRelayingInst | blockchain/beaconrelayingproducer.go:13-35 | four fields: type, shard, status and the JSON content |
| RelayingProducer.BuildInstructionsForHeaderRelaying | blockchain/beaconrelayingproducer.go:38-163 | undecodable: nothing; else one instruction, rejected if and only if there is no chain or the header is not verified, confirmed if and only if verified and the latest height rises by exactly one, else unconfirmed; the chain passed on is the verifier's result whenever a chain is present and the header decodes with the metadata's height, and the given chain otherwise; error always nil |
| RelayingProducer.ReqActionRoundTrip | blockchain/beaconrelayingproducer.go:46-56 | the action the shard side builds, through a lossless codec, yields one instruction about that metadata |
| RelayingHeaderMeta.ValidateSanityData | portal/metadata/relayingheader.go:78-109 | the ordered checks; the first that fails names the error |
| RelayingHeaderMeta.ValidateTxWithBlockChain | portal/metadata/relayingheader.go:69-76 | every transaction is accepted |
| RelayingHeaderMeta.ValidateMetadataByItself | portal/metadata/relayingheader.go:111-113 | only the BNB and BTC relaying types pass |
| RelayingHeaderMeta.HashRecord | portal/metadata/relayingheader.go:115-124 | the hashed string: base hash, address, header, height in decimal |
| RelayingHeaderMeta.HashRecordHeight | portal/metadata/relayingheader.go:115-124 | the record's tail reads back as the block height below 2^63 |
| RelayingHeaderMeta.BuildReqActions | portal/metadata/relayingheader.go:126-139 | one action headed by the metadata's own type |
| RedeemFromLiquidationPool.ValidateSanityData | portal/metadata/portalredeemfromliquidationpool.go:80-132 | a plain Tx passes at once; otherwise accepted iff every check passes, and each of the ten errors is returned iff every earlier check passes and its own check fails |
| RedeemFromLiquidationPool.ValidateTxWithBlockChain | portal/metadata/portalredeemfromliquidationpool.go:71-78 | every transaction is accepted |
| RedeemFromLiquidationPool.ValidateMetadataByItself | portal/metadata/portalredeemfromliquidationpool.go:134-136 | only the redeem type passes |
| RedeemFromLiquidationPool.HashRecord | portal/metadata/portalredeemfromliquidationpool.go:138-146 | each field reads back from its place: the base hash, the token, the amount as decimal digits, the address |
| RedeemFromLiquidationPool.HashRecordAmbiguous | portal/metadata/portalredeemfromliquidationpool.go:138-146 | with no separator, token "ab" with amount 12 and token "ab1" with amount 2 give the same record |
| RedeemFromLiquidationPool.BuildReqActions | portal/metadata/portalredeemfromliquidationpool.go:148-161 | one action headed by the fixed redeem type |
| RedeemFromLiquidationPool.ReqActionType | portal/metadata/portalredeemfromliquidationpool.go:148-161 | the action's type reads back as the redeem type whatever the metadata's own type |
| ShieldingRequestMeta.ValidateSanityData | portalv4/metadata/shieldingrequest.go:81-107 | the ordered checks; the signer is not compared with the requester |
| ShieldingRequestMeta.AnyoneMaySubmit | portalv4/metadata/shieldingrequest.go:91-94 | two transactions differing only in signer get the same answer |
| ShieldingRequestMeta.ValidateTxWithBlockChain | portalv4/metadata/shieldingrequest.go:72-79 | every transaction is accepted |
| ShieldingRequestMeta.ValidateMetadataByItself | portalv4/metadata/shieldingrequest.go:109-111 | only the shielding type passes |
| ShieldingRequestMeta.HashRecord | portalv4/metadata/shieldingrequest.go:113-121 | each field reads back from its place: the base hash, the token, the address, the proof |
| ShieldingRequestMeta.HashRecordAmbiguous | portalv4/metadata/shieldingrequest.go:113-121 | with no separator, token "a" with address "bc" and token "ab" with address "c" give the same record |
| ShieldingRequestMeta.BuildReqActions | portalv4/metadata/shieldingrequest.go:123-136 | one action headed by the fixed shielding type |
| WithdrawRewardResponse.FirstMatch | portal/metadata/withdrawrewardresponse.go:91-142 | the first unused instruction backing the response, with every skip condition |
| WithdrawRewardResponse.VerifyMinerCreatedTxBeforeGettingInBlock | portal/metadata/withdrawrewardresponse.go:78-148 | no match is an error; a match is marked used and nothing else changes |
| WithdrawRewardResponse.MatchUsedOnce | portal/metadata/withdrawrewardresponse.go:143-147 | once marked, an instruction backs no second response |
| WithdrawRewardResponse.CheckTransactionFee | portal/metadata/withdrawrewardresponse.go:44-47 | no fee is needed |
| WithdrawRewardResponse.ValidateTxWithBlockChain | portal/metadata/withdrawrewardresponse.go:49-52 | answers false with no error |
| WithdrawRewardResponse.ValidateSanityData | portal/metadata/withdrawrewardresponse.go:54-56 | answers (false, true, nil) |
| WithdrawRewardResponse.ValidateMetadataByItself | portal/metadata/withdrawrewardresponse.go:58-61 | only the response type passes |
| WithdrawRewardResponse.HashRecord | portal/metadata/withdrawrewardresponse.go:63-72 | each field reads back from its place, the reward amount as the decimal digits after the token hash |
| WithdrawRewardResponse.HashRecordAmbiguous | portal/metadata/withdrawrewardresponse.go:63-72 | with 64-character hash texts, a one-character shift between address, token text and amount gives two responses the same record |
| PortalProcessing.CollectPortalInstructions | portal/portalprocessing.go:12-25 | true iff the type is relaying, v3 or v4, checked in that order, routed to exactly one collector |
| PortalProcessing.HandlePortalInsts | portal/portalprocessing.go:27-79 | v3, then relaying, then v4 output, each only when enabled; the error is always nil |
| PortalProcessing.HandledFromEnabled | portal/portalprocessing.go:43-74 | every output instruction comes from an enabled producer |
| PortalProcessing.ProcessPortalInsts | portal/portalprocessing.go:81-121 | v3 unless skipped, then relaying, then v4; the first error stops the run |
| PortalProcessing.ProcessIsRunStages | portal/portalprocessing.go:92-116 | processing equals the reference run over the stages, each seeing the previous state |
| Shield.ShieldingAmount | portalv4/portalprocess/shield.go:179-182 | the UTXO outputs summed in a wrapping uint64 |
| Shield.ShieldingRequestProcessor.PutAction | portalv4/portalprocess/shield.go:32-39 | the action joins the end of its shard's list; other shards unchanged |
| Shield.PortalV4State.AddUTXOs | portalv4/portalprocess/shield.go:178 | the token's UTXOs gain the new ones after the known ones |
| Shield.PortalV4State.RecordShielding | portalv4/portalprocess/shield.go:183 | the shielding is recorded under its token and proof hash |
| Shield.BuildReqPTokensInstV4 | portalv4/portalprocess/shield.go:74-101 | four fields: type, shard, status and the JSON content |
| Shield.Judge | portalv4/portalprocess/shield.go:127-198 | the ordered rejection chain; acceptance carries the UTXOs, the sum and the minted amount |
| Shield.BuildNewInsts | portalv4/portalprocess/shield.go:103-199 | undecodable: nothing; rejection: one rejected instruction, state untouched; accept: state updated |
| Shield.AddShielded | portalv4/portalprocess/shield.go:263-275 | count-up grows by the shielded amount; a new entry deducts nothing |
| Shield.AddShieldedTwice | portalv4/portalprocess/shield.go:263-275 | credits add modulo 2^64 and never touch the deducted amount |
| Shield.ProcessInsts | portalv4/portalprocess/shield.go:201-300 | no state, wrong length or bad content: nothing; accepted: UTXO sum credited; rejected: status only |
| Shield.AcceptedRoundTrip | portalv4/portalprocess/shield.go:178-275 | an accepted instruction read back has the accepted status and decodes to the request's token and address, the same UTXOs and proof hash, and the minted amount |
| Shield.RejectedRoundTrip | portalv4/portalprocess/shield.go:277-299 | a rejected instruction read back changes no balance |
| SwapRule.GetSlashingOffset | blockchain/committeestate/swap_rule_v3.go:162-176 | 0 at minimum size or all fixed; else len/maxSlash, capped at the flexible part |
| SwapRule.GetNormalSwapOutOffset | blockchain/committeestate/swap_rule_v3.go:111-131 | the swap-out share minus slashed, capped at substitutes; 0 in the three guard cases |
| SwapRule.GetSwapInOffset | blockchain/committeestate/swap_rule_v3.go:81-93 | all substitutes when fewer than the share; else capped so size stays at most the maximum |
| SwapRule.AssignOffset | blockchain/committeestate/swap_rule_v3.go:51-60 | 1 for small or mostly fixed committees, else len/MAX_ASSIGN_PERCENT; never below 1 |
| SwapRule.SlashScanMultiset | blockchain/committeestate/swap_rule_v3.go:143-158 | kept plus slashed is a permutation of the scanned members |
| SwapRule.SlashScanFirst | blockchain/committeestate/swap_rule_v3.go:143-158 | exactly the first `offset` penalised members are slashed |
| SwapRule.SlashScanExhaustive | blockchain/committeestate/swap_rule_v3.go:143-158 | while budget remains no penalised member is kept |
| SwapRule.SlashingFacts | blockchain/committeestate/swap_rule_v3.go:133-160 | fixed members stay in front, nobody lost, at most the offset slashed, only penalised ones |
| SwapRule.SlashingSizes | blockchain/committeestate/swap_rule_v3.go:133-160 | the committee shrinks by exactly the slashed count, at most the flexible part |
| SwapRule.SlashingSwapOut | blockchain/committeestate/swap_rule_v3.go:133-160 | the loop's result is the slashing specification |
| SwapRule.NormalSwapOut | blockchain/committeestate/swap_rule_v3.go:95-109 | the fixed prefix and the tail stay; the `offset` members after the prefix leave; panic as None |
| SwapRule.NormalSwapOutInPlace | blockchain/committeestate/swap_rule_v3.go:105-106 | the append shifts the tail down in place; the returned list is read from rewritten cells |
| SwapRule.AppendInPlace | blockchain/committeestate/swap_rule_v3.go:105 | the backing array afterwards is the tail moved down over the swapped-out cells; its first cells are the remaining committee |
| SwapRule.NormalSwapOutAsWritten | blockchain/committeestate/swap_rule_v3.go:95-109 | the remaining committee is right; the swapped-out list is the rewritten backing cells |
| SwapRule.AliasedSwapOutIsNext | blockchain/committeestate/swap_rule_v3.go:105-106 | as written, the swapped-out list names the members after the leavers, who stay |
| SwapRule.AliasedSwapOutCounterexample | blockchain/committeestate/swap_rule_v3.go:105-106 | [a,b,c,d], one fixed, one out: written names c, meant names b |
| SwapRule.SwapInAfterSwapOut | blockchain/committeestate/swap_rule_v3.go:62-79 | the first `offset` substitutes join the committee's end in order; the rest stay; negative offset panics |
| SwapRule.SwapInArgumentOrderCounterexample | blockchain/committeestate/swap_rule_v3.go:33-35 | with the call's argument order the offset is -4 and panics; the parameters' order swaps in one |
| SwapRule.SwapInstructionFor | blockchain/committeestate/swap_rule_v3.go:37-46 | the instruction is empty iff nothing moves |
| SwapRule.NoPanicWhenFits | blockchain/committeestate/swap_rule_v3.go:95-109 | no slice panics when the fixed members and share fit and size is within maximum |
| SwapRule.SwapConserves | blockchain/committeestate/swap_rule_v3.go:17-49 | slashing, swap-out and swap-in together lose and duplicate nobody; fixed members stay in front |
| SwapRule.RuleSound | blockchain/committeestate/swap_rule_v3.go:17-49 | the whole rule conserves members, swaps in the first substitutes, slashes only penalised, empty iff nothing moves |
| SwapRule.RuleNoPanic | blockchain/committeestate/swap_rule_v3.go:17-49 | the rule answers when the fixed members fit and the committee is within its maximum |
| SwapRule.RuleSomeWhenBothFit | blockchain/committeestate/swap_rule_v3.go:17-49 | the rule answers if and only if the fixed members fit, the swap-out share fits after them, and the swap-in offset is not negative |
| SwapRule.GenInstructions | blockchain/committeestate/swap_rule_v3.go:17-49 | the method computes the rule, with swap-in arguments in the parameters' order |
| SwapRule.SwappedOutAfterSwapIn | blockchain/committeestate/swap_rule_v3.go:74-76 | the returned swap-out list after the swap-in append: a cell from len(afterSlash) - offset on holds the swapped-in member written there when the append fits the capacity, else the shifted backing cell |
| SwapRule.SwapInOverwritesSwapOut | blockchain/committeestate/swap_rule_v3.go:74-76 | with 0 < swapIn <= offset and fewer than `offset` members after the leavers, the returned list names the first swapped-in member, whatever the capacity |
| SwapRule.SwapOutListUntouchedWhenRoomy | blockchain/committeestate/swap_rule_v3.go:74-76 | with at least `offset` members after the leavers, the swap-in leaves the returned list as the members after the leavers |
| SwapRule.SwapInOverwriteCounterexample | blockchain/committeestate/swap_rule_v3.go:74-76 | [a,b,c], two fixed, one substitute: the instruction names c, the returned list is [s1] |
| SwapRule.GenInstructionsAsWritten | blockchain/committeestate/swap_rule_v3.go:17-49 | None if and only if the fixed members do not fit, the swap-out share does not fit, or the swap-in offset with the fixed count as the cap is negative; otherwise the slashed members are the slashing pass's, the swapped-in members are the first substitutes up to that offset, the instruction names the slashed and the shifted backing cells copied before the swap-in, the returned swap-out list is those cells after the swap-in append, and the committee is the kept members followed by the swapped-in ones |
| PortalDB.HeightKeyRoundTrip | database/lvdb/portal.go:133-138 | a height-scoped key parses back as its height and identifier |
| PortalDB.HeightKeyInjective | database/lvdb/portal.go:133-174 | different heights or identifiers give different keys |
| PortalDB.HeightKeysReadBack | database/lvdb/portal.go:133-174 | every height-scoped key builder reads back under its own prefix |
| PortalDB.RewardKeyDigits | database/lvdb/portal.go:666-670 | the reward key is prefix plus digits only, and does not parse as height-scoped |
| PortalDB.RewardKeyInjective | database/lvdb/portal.go:666-670 | different heights give different reward keys |
| PortalDB.LiquidationDepositKeyIsCustodianDepositKey | database/lvdb/portal.go:717-720 | the liquidation deposit key equals the custodian deposit key |
| PortalDB.RedeemLiquidateKeyInWaitingRedeemSpace | database/lvdb/portal.go:698-701 | a "height-id" identifier gives a waiting-redeem key |
| PortalDB.GetRemoteAddressByTokenID | database/lvdb/portal.go:182-190 | the first entry's address for the token; an error iff none |
| PortalDB.FindCustodian | database/lvdb/portal.go:199-205 | the first entry for the custodian, or none |
| PortalDB.Plus | database/lvdb/portal.go:197-217 | the first matching entry grows (wrapping), else one entry appended; others unchanged |
| PortalDB.Minus | database/lvdb/portal.go:219-226 | the first matching entry shrinks (wrapping); no-op without one |
| PortalDB.MinusUndoesPlus | database/lvdb/portal.go:197-226 | taking back a reward just added restores the list when it did not wrap |
| PortalDB.PlusPortalReward | database/lvdb/portal.go:197-217 | the in-place update: the entry's amount grows or one entry is appended; no other entry changes |
| PortalDB.MinusPortalReward | database/lvdb/portal.go:219-226 | the in-place update: only the first matching entry shrinks |
| PortalDB.ConvertAsWritten | database/lvdb/portal.go:456-469 | the conversion with wrapping uint64 products, before the float64 round trip; an error for a zero target rate |
| PortalDB.Convert | database/lvdb/portal.go:456-469 | the conversion computed exactly; an error iff the target rate is zero |
| PortalDB.ConvertBounds | database/lvdb/portal.go:456-469 | never overstates the value; the loss is under one nano unit and one target unit |
| PortalDB.ConvertAsWrittenWithoutWrap | database/lvdb/portal.go:456-469 | without wrap-around the written conversion is the exact one |
| PortalDB.ConvertWrapCounterexample | database/lvdb/portal.go:458 | 10 BTC at 10000 pUSDT into PRV at 1 pUSDT gives 200376420 instead of 10^14 |
| PortalDB.ExchangePToken2PRVByTokenId | database/lvdb/portal.go:434-443 | BTC and BNB with (token, PRV) rates; any other token is an error |
| PortalDB.ExchangePRV2PTokenByTokenId | database/lvdb/portal.go:445-454 | BTC and BNB with the rates swapped; any other token is an error |
| PortalDB.ExchangeRoundTripNeverGains | database/lvdb/portal.go:434-454 | token to PRV and back never yields more than was put in |
| Validation.CheckValidationDataWithCommittee | consensus_v2/blsbft/validation.go:73-86 | true iff a non-empty committee, at least n*2/3+1 indices, strictly increasing |
| Validation.AcceptedIsSupermajority | consensus_v2/blsbft/validation.go:77-85 | accepted indices are distinct and exceed two thirds of the committee |
| Validation.IndicesNotRangeChecked | consensus_v2/blsbft/validation.go:80-85 | indices 7, 8, 9 pass for a committee of three |
| Validation.ValidateCommitteeSig | consensus_v2/blsbft/validation.go:88-106 | decode failure or a failed committee check is an error; else ok iff the BLS check holds |
| Validation.CheckComesBeforeBLS | consensus_v2/blsbft/validation.go:93-96 | when the committee check fails the answer does not depend on the BLS verifier |
| SyncUtils.KeysOf | syncker/utils.go:179-182 | the keys of the pool blocks, in order |
| SyncUtils.DifferenceMembers | syncker/utils.go:175-221 | an entry appears iff wanted and absent from the pool's list; only wanted shards appear |
| SyncUtils.CollectPoolKeys | syncker/utils.go:178-183 | each pool block's key appended to its shard's list |
| SyncUtils.MissingKeys | syncker/utils.go:187-191 | the wanted keys the pool lacks, in wanted order |
| SyncUtils.CompareBy | syncker/utils.go:175-221 | the result equals the per-shard difference |
| SyncUtils.CompareLists | syncker/utils.go:175-197 | the wanted hashes the pool lacks, per shard |
| SyncUtils.CompareListsByHeight | syncker/utils.go:199-221 | the wanted heights the pool lacks, per shard |
| SyncUtils.BlocksOf | syncker/utils.go:223-238 | the known blocks of a hash list, in order |
| SyncUtils.GetBlksByPrevHash | syncker/utils.go:223-238 | the known children of a hash in listed order; nothing when it has no list |
| SyncUtils.PickIsBest | syncker/utils.go:134-166 | the traversal's choice is a visited block at least as high as every visited candidate |
| SyncUtils.ChainBackLinked | syncker/utils.go:158-164 | the walk back is parent-linked, ends at its start and never holds the stop hash |
| SyncUtils.WalkBack | syncker/utils.go:121-130 | the loop that prepends parents yields the walk back |
| SyncUtils.GetLongestChain | syncker/utils.go:134-166 | the walk back from the highest leaf found from the final hash |
| SyncUtils.LongestChainEndsAtHighestLeaf | syncker/utils.go:134-166 | the chain ends at a childless visited block as high as any; each block is the next one's parent |
| SyncUtils.VisitedLeavesAreLeaves | syncker/utils.go:134-166 | the visited leaves have no children |
| SyncUtils.GetFinalBlockFromBlockHashV1 | syncker/utils.go:98-132 | the walk back, stopping at the final hash, from the highest block with children |
| SyncUtils.FinalChainEndsAtHighestParent | syncker/utils.go:98-132 | the chain ends at the highest visited block with children and never holds the final hash |
| SyncUtils.GetAllViewFromHash | syncker/utils.go:240-261 | every block returned descends from the start hash through blocks returned before it |
| SyncUtils.SwapCut | syncker/utils.go:31-50 | the batch up to and including the first shard block with a swap |
| SyncUtils.GapCut | syncker/utils.go:52-60 | the run up to the first height gap, each block one below the next |
| SyncUtils.SigTrim | syncker/utils.go:62-77 | the run without its trailing blocks whose signatures fail |
| SyncUtils.CutAtSwap | syncker/utils.go:31-50 | the loop's cut is SwapCut |
| SyncUtils.CutAtGap | syncker/utils.go:52-60 | the loop's cut is GapCut |
| SyncUtils.SigTrimLoop | syncker/utils.go:62-77 | the loop's cut is SigTrim |
| SyncUtils.ContainSwapLoop | syncker/utils.go:31-50 | the loop answers whether a swap instruction is present |
| SyncUtils.InsertAll | syncker/utils.go:79-94 | the insertion loop's result is the insertion run's specification |
| SyncUtils.InsertBatchBlock | syncker/utils.go:18-95 | the candidates are the plan; the count is theirs, or 0 with the first insert error |
| SyncUtils.PlanCandidates | syncker/utils.go:31-77 | the run ends at the first swap and before the first gap and keeps the batch order |
| SyncUtils.AllInvalidValidatesAll | syncker/utils.go:62-77 | when every candidate fails its signature check, every insertion is fully validated |
| SyncUtils.InsertFlags | syncker/utils.go:79-94 | only the first block validates under batching; inserted blocks were unknown, become known |
| ChainHelpers.GetShardIDs | blockchain/blockchain.go:314-320 | 0 up to the active shard count, ascending, each once |
| ChainHelpers.CalculateNumberOfByteToRead | blockchain/blockchain.go:349-353 | eight bytes, the low four the little-endian uint32, the rest zero |
| ChainHelpers.GetNumberOfByteToRead | blockchain/blockchain.go:355-362 | the leading little-endian uint32; EOF on no bytes, unexpected EOF on one to three |
| ChainHelpers.ByteCountRoundTrip | blockchain/blockchain.go:349-362 | reading back gives the amount modulo 2^32, the amount itself below 2^32 |
| ChainHelpers.ByteCountWraps | blockchain/blockchain.go:349-353 | amounts 2^32 apart give the same prefix |
| ChainHelpers.WithRelay | blockchain/blockchain.go:756-767 | an error when already relayed, else the shard appended |
| ChainHelpers.WithoutRelay | blockchain/blockchain.go:769-779 | the first occurrence removed, or unchanged |
| ChainHelpers.AddKeepsDistinct | blockchain/blockchain.go:756-767 | adding keeps the list free of repeats |
| ChainHelpers.RemoveKeepsDistinct | blockchain/blockchain.go:769-779 | removing leaves a repeat-free list without the shard |
| ChainHelpers.RemoveUndoesAdd | blockchain/blockchain.go:756-779 | removing a shard just added restores the list |
| ChainHelpers.Config.GetWantedShard | blockchain/blockchain.go:612-626 | every byte below byte(activeShards) for the beacon committee, else the relay shards |
| ChainHelpers.Config.AddRelayShard | blockchain/blockchain.go:756-767 | the relay list becomes WithRelay's answer; an error leaves it unchanged |
| ChainHelpers.Config.RemoveRelayShard | blockchain/blockchain.go:769-779 | the relay list becomes WithoutRelay's answer |
| ChainHelpers.ChosenKeyUnique | blockchain/blockchain.go:649-656 | at most one key is in force at a height |
| ChainHelpers.ChosenKeyMonotone | blockchain/blockchain.go:649-656 | a higher height never falls back to an earlier key |
| ChainHelpers.GetPortalParams | blockchain/blockchain.go:634-658 | one entry: key 0's value; else the largest key at or below the height, or the largest key |
| ChainHelpers.ScanDown | blockchain/blockchain.go:649-656 | the scan picks the first key from the top at or below the height, else the top key |
| ChainHelpers.ChosenFromSorted | blockchain/blockchain.go:645-656 | the scan over ascending keys picks the key in force |

## Left out

- Numeric metadata type codes, the transaction type strings ("n", "tp"), the
  shielding statuses ("accepted", "rejected", 1 and 2), the token identifiers
  ("BTC", "BNB", "PRV"), the consensus name "bls" and the committee action
  words are stand-in constants: the files that define them are not part of
  this model. Only their distinctness matters to the proofs.
- The MAX_SLASH_PERCENT, MAX_SWAP_OUT_PERCENT, MAX_SWAP_IN_PERCENT and
  MAX_ASSIGN_PERCENT constants are positive parameters, for the same reason.
- Database writes and reads (the lvdb and state-database methods), logging
  and the relay-shard mutex are left out. Writes appear only as a success
  flag or an error parameter.
- The base64, JSON and base58 codecs, hashing, wallet deserialisation, proof
  parsing and BLS signatures are function parameters. ValidateProducerSig and
  the BLS internals of validation.go are not part of this model.
- Sorting.InsertionSort: `sort.Slice` is not stable. The model sorts
  stably, but the contracts promise only order and permutation, which hold
  for any correct sort.
- ActionSort.SortPdeTradeInstsByFee: the fee order is proved a strict weak
  order only when every amount sold reads as a positive int64. Otherwise
  Go's comparator is not an order and no arrangement is promised beyond
  permutation.
- Go panics are preconditions where the input comes from the node itself:
  - SyncUtils.InsertBatchBlock needs ScanOk (a nil instruction field);
  - ChainHelpers.GetPortalParams needs a non-empty map, since index -1 panics;
  - Shield.ProcessInsts needs a non-empty UTXO list on an accepted instruction;
  - Shield.BuildNewInsts needs a verified proof to carry UTXOs;
  - Bridge.StoreBurningConfirm needs six fields on a burning instruction,
    and at least one field on every instruction. Go reads field 0 only while
    walking `metas`, so with an empty `metas` an empty instruction does not
    panic there; the model still requires the field;
  - WithdrawRewardResponse.VerifyMinerCreatedTxBeforeGettingInBlock needs
    the used-flags array to be at least as long as the instruction list. Go
    indexes it only for instructions of four or more fields, so a shorter
    array with short trailing instructions does not panic there; the model
    still requires the length.
- SyncUtils.GetLongestChain: the traversal is bounded by a `fuel` depth,
  since termination of a pool's parent links is not guaranteed by the type.
  The same bound applies to SyncUtils.GetFinalBlockFromBlockHashV1 and
  SyncUtils.ChainBackLinked. Every pool reachable within the bound is
  modelled exactly.
- SyncUtils.GetAllViewFromHash: proves only soundness (every block returned
  descends from the start hash), not that every descendant is found. The
  loop is bounded by `fuel`, and the map's order is the `keys` parameter.
- SyncUtils: the pool blocks require Consistent (each block stored under its
  own hash). A nil and an empty child list are the same in the model.
- GetPoolInfo and isNil in syncker/utils.go are not named in this model's
  scope and are left out.
- PortalDB.ExchangePToken2PRVByTokenId: the Exchange* helpers use the exact
  Convert, not the wrapping one (see Findings). `math.Round` on a float64 of
  an integer is taken as the identity, which is exact below 2^53.
- PortalDB.ExchangePRV2PTokenByTokenId: the same as
  ExchangePToken2PRVByTokenId; it uses the exact Convert with the rates
  swapped, not the wrapping one, and drops the float64 round trip.
- PortalDB.ConvertAsWritten: models the wrapping uint64 products and
  divisions of database/lvdb/portal.go:456-465 but not the final
  `uint64(math.Round(float64(result)))` of lines 466-467. Below 2^53 that
  round trip is the identity. From 2^53 on, float64 keeps 53 significant
  bits, so Go may return a neighbouring multiple of a power of two, and a
  result rounded up to 2^64 converts back in a platform-dependent way. The
  contract gives the integer result before that round trip.
- RelayingProducer.BuildInstructionsForHeaderRelaying: the chain's latest
  header is read as a value before and after ReceiveNewHeader
  (blockchain/beaconrelayingproducer.go:120 and 138-140). This assumes
  ReceiveNewHeader replaces the LatestHeader pointer. If it instead updated
  the header it points to, Go would compare a height with itself plus one
  and never answer confirmed. A nil LatestHeader panics at line 140; the
  model's header chain always has a latest height.
- SwapRule.GenInstructionsAsWritten: the capacity the slashing append
  leaves beyond the committee's length comes from Go's slice growth policy
  and is the parameter `spare`. The swap-in append writes into the
  swapped-out cells for certain when 0 < swapIn <= offset and
  |afterSlash| < f + 2 * offset; only when more members are swapped in than
  out does the outcome depend on `spare`.
- PortalDB.PlusPortalReward and PortalDB.MinusPortalReward: the list is
  modelled as distinct entry objects. The same entry held twice in one list are not
  modelled.
- Go's unspecified map iteration order becomes results stated as maps or
  sets. Bridge.WriteUpdates picks the next key arbitrarily. Its contract
  states the written updates as a map, so it does not say which writes
  happened before a failed one. SyncUtils.GetAllViewFromHash takes the
  order as a `keys` parameter.
- Shield.PortalV4State.AddUTXOs and Shield.PortalV4State.RecordShielding
  stand for UpdatePortalStateUTXOs and UpdatePortalStateShieldingExternalTx.
  Their bodies are not part of this model. The model appends the new UTXOs
  to the token's list and records the shielding under the token and the
  proof hash, as their names state.
- Sorting.LexLess compares Dafny characters, while Go's string `<` compares
  UTF-8 bytes. The two orders agree on ASCII strings, which the pool keys
  and token identifiers are.

## Findings

| source | as written | input that shows it | evidently intended | confidence | as-written member | corrected member |
|---|---|---|---|---|---|---|
| blockchain/committeestate/swap_rule_v3.go:33-35 | GenInstructions passes (maxCommitteeSize, numberOfFixedValidators) into swapInAfterSwapOut's (numberOfFixedValidators, maxCommitteeSize) parameters, so the swap-in cap is the fixed count | 8 members after swap-out, 4 fixed, 5 substitutes, maximum 10, swap-in divisor 6: the offset is 4 - 8 = -4 and `substitutes[:-4]` panics | the committee is capped at maxCommitteeSize, so one substitute joins | high, not executed | SwapRule.SwapInArgumentOrderCounterexample | SwapRule.GenInstructions |
| blockchain/committeestate/swap_rule_v3.go:105-106 | the swapped-out slice is taken after `append(committees[:f], committees[f+offset:]...)` has shifted the tail over it in the same backing array | committee [a, b, c, d], 1 fixed, offset 1: the swapped-out list reads [c], while c stays and b leaves | the swapped-out list is [b], the members that left | high, not executed | SwapRule.AliasedSwapOutCounterexample | SwapRule.NormalSwapOut |
| blockchain/committeestate/swap_rule_v3.go:74-76 | the swap-in `append(resCommittees, ...)` writes into the backing array that the returned normal swap-out list still shares | committee [a, b, c], 2 fixed, 1 substitute, swap-out divisor 3, swap-in divisor 1: c leaves, s1 joins, and the returned swap-out list reads [s1] while the instruction names c | the returned swap-out list is [c], the member that left | high, not executed | SwapRule.SwapInOverwriteCounterexample | SwapRule.GenInstructions |
| database/lvdb/portal.go:456-469 | `value * ratesFrom` is a uint64 product and wraps | 10^10 nano BTC at a rate of 10^13 into PRV at 10^9: the written conversion yields 200376420 | 10^14 nano PRV, the exact conversion | medium, not executed | PortalDB.ConvertWrapCounterexample | PortalDB.Convert |
