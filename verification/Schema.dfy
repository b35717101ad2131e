/**
  The readers that turn an untrusted JavaScript value into a normalised record, described by data:
  a kind says what a reader accepts, `Read` is what it returns.  Every rejection is one and the
  same error, so it is `None`.
 */
module Schema {
  import opened Decimal
  import opened Wrappers

  /**
    The property names the public records use, spelt as they are but for the reserved `label'` and
    `type'`; any other name is `unlisted`.
   */
  datatype Key =
    | schemaVersion | profile | badge | network | historyComplete | generatedAt | nextCycleAt
    | delayed | poolObservedAt | metrics | latestCycle | cards | heldPositionCount | heldPositions
    | executionState | executionReason | countdownSeconds | cycle | scheduler
    | evm | solana | name | chainId | label' | genesisHash
    | latestObservedProjectPoolMicroUsdg | totalCycleFundingMicroUsdg | totalCollectorSpendMicroUsdg
    | totalBuybacksReturnedMicroUsdg | totalBridgedBackMicroUsdg | totalRewardsPaidMicroUsdg
    | totalRewardsDeferredMicroUsdg | totalQuotedOperatingCostsMicroUsdg
    | latestRetainedReserveMicroUsdg | latestCycleReserveTargetMicroUsdg
    | completedCycles | skippedCycles | openedPacks
    | cycleId | status | reason | updatedAt | startedAt | paidMicroUsdg | spentMicroUsdg
    | payoutRecipientCount | roundAccounting | transactions | rewardRecipientLimit
    | selectedPackId | maxBoostersPerCycle | plannedBoosters | openedBoosters | actions
    | returnedMicroUsdg | rewardStatus | at
    | packSpendMicroUsdg | buybackMicroUsdg | packGainMicroUsdg | packLossMicroUsdg | quotedCosts
    | protectedCostsMicroUsdg | confirmedCostsMicroUsdg | cycleGainMicroUsdg | cycleLossMicroUsdg
    | walletBalanceBeforeMicroUsdg | walletBalanceAfterMicroUsdg | networkFees
    | feeReserveBeforeMicroUsdg | feeReserveTargetMicroUsdg | feeReserveTopUpMicroUsdg
    | feeReserveAfterMicroUsdg | plannedHolderRewardsMicroUsdg | paidHolderRewardsMicroUsdg
    | holderRewardsStatus | distributionStatus | holderRewardsMicroUsdg | gainMicroUsdg | lossMicroUsdg
    | outboundBridgeDebit | inboundBridgeProceeds | collectorPurchaseDebit | collectorBuybackProceeds
    | payoutLiabilityMicroUsdg | payoutDustMicroUsdg | paidHolderRewardsRecipientCount
    | outboundBridgeMicroUsdg | inboundBridgeMicroUsdg | collectorApiMicroUsdg | evmNetworkMicroUsdg
    | solanaNetworkMicroUsdg | slippageMicroUsdg
    | walletLamportsCharged | purchase | buyback | lamports | paidBy
    | assetId | units | decimals
    | positionId | ageSeconds | cycleState
    | chain | purpose | id
    | productId | rarity | nftAddress | cardName | setName | cardNumber | imageUrl
    | packPriceMicroUsdg | type'
    | operationId | packIndex | memo | mint | eventId | sequence | state | observedAt | finalizedAt
    | transactionId | proceeds
    | nextReconcileAt | automationEnabled | paused | pendingReason
    | timeline | packs | packPlan | orders | quantity | unitPrice | inbound | amountReceived | settlement
    | paidThisCycleMicroUsdg | paid | roundEvidence | ledgerSnapshot | outboundMicroUsdg | inboundMicroUsdg
    | collectorMicroUsdg | evmGasMicroUsdg | solanaGasMicroUsdg | buybackAmount | confirmedCostMicroUsdg
    | protectedCostForecastMicroUsdg
    | unlisted(spelling: string)

  datatype Js =
    | Undefined
    | Null
    | Bool(b: bool)
    | Num(n: int)
    | Fraction(r: real)
    | Str(s: string)
    | BigInt(i: int)
    | Arr(items: seq<Js>)
    | Obj(fields: map<Key, Js>)

  /** A parsed URL: how it prints, and whether it is HTTPS without credentials. */
  datatype Url = Url(text: string, clean: bool)

  /** Built-ins of the host: URL parsing, timestamps in milliseconds, and `String(...)`. */
  datatype Host = Host(url: string -> Option<Url>, time: string -> Option<int>, text: Js -> string)

  /** What is assumed of them: a printed URL parses to the same one, and a string is its own text. */
  ghost predicate Sane(h: Host) {
    && (forall s :: UrlStays(h, s))
    && (forall s :: h.text(Str(s)) == s)
  }

  predicate UrlStays(h: Host, s: string) { h.url(s).Some? ==> h.url(h.url(s).value.text) == h.url(s) }

  datatype Leaf =
    | Money
    | SignedMoney
    | AnyMoney
    | Text
    | AnyText
    | Time
    | Count
    | Positive
    | Decimals
    | RecipientLimit
    | Boolean
    | LowerReason
    | UpperReason
    | ImageUrl
    | Transaction
    | OneOf(names: set<string>)
    | TextIn(texts: set<string>)
    | Emit(taken: Js, given: Js)
    | AlwaysNull

  datatype Kind =
    | Is(leaf: Leaf)
    | Nullable(some: Kind)
    | Maybe(some: Kind)
    | List(max: nat, item: Kind)
    | Record(members: Members, allowed: set<Key>, required: set<Key>, checks: seq<Check>)

  /** The members a record reader builds. */
  type Members = map<Key, Member>

  /** An optional member that is absent stays absent. */
  datatype Member = Req(kind: Kind) | Opt(kind: Kind)

  /** Conditions between the members of the record that has been read. */
  datatype Check =
    | Exclusive(gain: Key, loss: Key)
    | NullExclusive(gain: Key, loss: Key)
    | CountIs(count: Key, list: Key)
    | Window(count: Key, list: Key, size: nat)
    | DistinctTransactions
    | PoolFresh
    | Countdown
    | PausedReason
    | OneWakeup
    | FinalizedAfter

  const MAX_TEXT := 512
  const MAX_DIGITS := 78
  const MAX_SAFE := 9007199254740991
  const POOL_FRESHNESS := 90000

  function Get(m: map<Key, Js>, key: Key): Js { if key in m then m[key] else Undefined }

  // ---------- leaves ----------

  predicate MoneyText(s: string) { Canonical(s) && |s| <= MAX_DIGITS }

  predicate SignedText(s: string) {
    MoneyText(s) || (|s| > 1 && s[0] == '-' && MoneyText(s[1..]) && s[1] != '0')
  }

  predicate InRanges(c: char, ranges: seq<(char, char)>) {
    exists r | r in ranges :: r.0 <= c <= r.1
  }

  predicate AllIn(s: string, ranges: seq<(char, char)>) {
    forall c | c in s :: InRanges(c, ranges)
  }

  const LOWER := [('a', 'z'), ('0', '9')]
  const UPPER := [('A', 'Z')]
  const HEX := [('0', '9'), ('a', 'f'), ('A', 'F')]
  const BASE58 :=
    [('1', '9'), ('A', 'H'), ('J', 'N'), ('P', 'Z'), ('a', 'k'), ('m', 'z')]

  predicate EvmId(s: string) { |s| == 66 && s[..2] == "0x" && AllIn(s[2..], HEX) }

  predicate SolanaId(s: string) { 32 <= |s| <= 88 && AllIn(s, BASE58) }

  const EVM_PURPOSES := {"outbound-burn", "inbound-finalization", "reward-settlement"}
  const SOLANA_PURPOSES := {"outbound-mint", "inbound-burn", "collector-purchase", "collector-buyback"}

  predicate EvmReference(h: Host, m: map<Key, Js>)
    requires m.Keys == {chain, purpose, id} && m[id].Str?
  {
    m[chain] == Str("evm") && h.text(m[purpose]) in EVM_PURPOSES && EvmId(m[id].s)
  }

  predicate SolanaReference(h: Host, m: map<Key, Js>)
    requires m.Keys == {chain, purpose, id} && m[id].Str?
  {
    m[chain] == Str("solana") && h.text(m[purpose]) in SOLANA_PURPOSES && SolanaId(m[id].s)
  }

  predicate TransactionOk(h: Host, v: Js) {
    && v.Obj? && v.fields.Keys == {chain, purpose, id}
    && v.fields[id].Str?
    && (EvmReference(h, v.fields) || SolanaReference(h, v.fields))
  }

  predicate LimitOk(n: int) { n == 50 || (100 <= n <= 1000 && n % 100 == 0) }

  /** What a leaf accepts as it stands. */
  predicate Accepts(h: Host, leaf: Leaf, v: Js) {
    match leaf
    case Money => v.Str? && MoneyText(v.s)
    case SignedMoney => v.Str? && SignedText(v.s)
    case AnyMoney => v.Str? && Canonical(v.s)
    case Text => v.Str? && 1 <= |v.s| <= MAX_TEXT
    case AnyText => v.Str? && 1 <= |v.s|
    case Time => v.Str? && 1 <= |v.s| <= MAX_TEXT && h.time(v.s).Some?
    case Count => v.Num? && 0 <= v.n <= MAX_SAFE
    case Positive => v.Num? && 1 <= v.n <= MAX_SAFE
    case Decimals => v.Num? && 0 <= v.n <= 255
    case RecipientLimit => v.Num? && LimitOk(v.n)
    case Boolean => v.Bool?
    case LowerReason => v.Str? && 1 <= |v.s| <= 64 && AllIn(v.s[..1], LOWER)
      && AllIn(v.s, LOWER + [('-', '-')])
    case UpperReason => v.Str? && 3 <= |v.s| <= 64 && AllIn(v.s[..1], UPPER)
      && AllIn(v.s, UPPER + [('0', '9'), ('_', '_')])
    case ImageUrl => v.Str? && 1 <= |v.s| <= MAX_TEXT && h.url(v.s).Some? && h.url(v.s).value.clean
    case Transaction => TransactionOk(h, v)
    case OneOf(names) => v.Str? && v.s in names
    case TextIn(texts) => h.text(v) in texts
    case Emit(taken, _) => v == taken
    case AlwaysNull => true
  }

  /** What it returns for an accepted value: most leaves return the value itself. */
  function Given(h: Host, leaf: Leaf, v: Js): Js
    requires Accepts(h, leaf, v)
  {
    match leaf
    case ImageUrl => Str(h.url(v.s).value.text)
    case Emit(_, given) => given
    case AlwaysNull => Null
    case _ => v
  }

  // ---------- checks ----------

  predicate IsZero(v: Js) { v == Str("0") }

  function LowerCase(s: string): string {
    if s == "" then ""
    else
      (if 'A' <= s[0] <= 'Z' then [(s[0] as int + 32) as char] else [s[0]]) + LowerCase(s[1..])
  }

  /** The key under which two references to one transaction collide. */
  function TransactionKey(v: Js): string
    requires v.Obj? && chain in v.fields && id in v.fields && v.fields[id].Str?
  {
    if v.fields[chain] == Str("evm") then "evm:" + LowerCase(v.fields[id].s)
    else "solana:" + v.fields[id].s
  }

  predicate Distinct(items: seq<Js>)
    requires forall v | v in items :: v.Obj? && chain in v.fields && id in v.fields && v.fields[id].Str?
  {
    forall i, j | 0 <= i < j < |items| :: TransactionKey(items[i]) != TransactionKey(items[j])
  }

  function TimeOf(h: Host, v: Js): int {
    if v.Str? && h.time(v.s).Some? then h.time(v.s).value else 0
  }

  /** `Math.ceil(Math.max(0, next - generated) / 1000)`. */
  function CountdownSeconds(generated: int, next: int): nat {
    (Monus(next, generated) + 999) / 1000
  }

  predicate Passes(h: Host, c: Check, m: map<Key, Js>) {
    match c
    case Exclusive(gain, loss) => IsZero(Get(m, gain)) || IsZero(Get(m, loss))
    case NullExclusive(gain, loss) =>
      && (Get(m, gain).Null? <==> Get(m, loss).Null?)
      && (Get(m, gain).Null? || IsZero(Get(m, gain)) || IsZero(Get(m, loss)))
    case CountIs(count, list) => Get(m, list).Arr? && Get(m, count) == Num(|Get(m, list).items|)
    case Window(count, list, size) =>
      && Get(m, list).Arr? && Get(m, count).Num?
      && |Get(m, list).items| == (if Get(m, count).n < size then Get(m, count).n else size)
    case DistinctTransactions =>
      && Get(m, transactions).Arr?
      && (forall v | v in Get(m, transactions).items ::
            v.Obj? && chain in v.fields && id in v.fields && v.fields[id].Str?)
      && Distinct(Get(m, transactions).items)
    case PoolFresh =>
      var pool, generated := Get(m, poolObservedAt), Get(m, generatedAt);
      && Get(m, metrics).Obj?
      && (pool.Null? <==> Get(Get(m, metrics).fields, latestObservedProjectPoolMicroUsdg).Null?)
      && (!pool.Null? ==>
        && TimeOf(h, pool) <= TimeOf(h, generated)
        && (TimeOf(h, generated) - TimeOf(h, pool) > POOL_FRESHNESS ==> Get(m, delayed) == Bool(true)))
    case Countdown =>
      Get(m, countdownSeconds)
        == Num(CountdownSeconds(TimeOf(h, Get(m, generatedAt)), TimeOf(h, Get(m, nextCycleAt))))
    case PausedReason =>
      Get(m, executionReason)
        == (if Get(m, executionState) == Str("paused") then Str("operator-paused") else Null)
    case OneWakeup => Get(m, nextCycleAt).Null? || Get(m, nextReconcileAt).Null?
    case FinalizedAfter =>
      Get(m, finalizedAt).Null? || TimeOf(h, Get(m, finalizedAt)) >= TimeOf(h, Get(m, observedAt))
  }

  // ---------- reading ----------

  /** The members an output always has. */
  function AlwaysKeys(ms: Members): set<Key> { set key | key in ms && ms[key].Req? }

  predicate Built(ms: Members, source: map<Key, Js>, key: Key) {
    key in ms && (ms[key].Req? || key in source)
  }

  function Read(h: Host, k: Kind, v: Js): Option<Js>
    decreases k, 0
  {
    match k
    case Is(leaf) => if Accepts(h, leaf, v) then Some(Given(h, leaf, v)) else None
    case Nullable(some) => if v == Null then Some(Null) else Read(h, some, v)
    case Maybe(some) => if v == Null || v == Undefined then Some(Null) else Read(h, some, v)
    case List(max, item) =>
      if !v.Arr? || |v.items| > max then None
      else ReadItems(h, item, v.items).Map(items => Arr(items))
    case Record(members, allowed, required, checks) =>
      if !v.Obj? || !(v.fields.Keys <= allowed) || !(required <= v.fields.Keys) then None
      else if exists key | key in members && Built(members, v.fields, key) ::
                Read(h, members[key].kind, Get(v.fields, key)).None? then None
      else
        var out := map key | key in members && Built(members, v.fields, key) ::
          Read(h, members[key].kind, Get(v.fields, key)).value;
        if forall c | c in checks :: Passes(h, c, out) then Some(Obj(out)) else None
  }

  function ReadItems(h: Host, k: Kind, items: seq<Js>): Option<seq<Js>>
    decreases k, 1 + |items|
  {
    if items == [] then Some([])
    else match (Read(h, k, items[0]), ReadItems(h, k, items[1..]))
      case (Some(v), Some(vs)) => Some([v] + vs)
      case _ => None
  }
}
