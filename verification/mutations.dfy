/**
 * Persistence mutations: projecting ops, headers and entries into rows of
 * the `Entry`, `Header` and `DhtOp` tables, the single-row `DhtOp` updates
 * (validation stage, receipts, integration, publishing) and the in-memory
 * `Scratch` inserts.
 *
 * A transaction is the `Txn` class: the three tables as maps from primary
 * key to row, plus the ordered log of statements executed in it.  Columns
 * that a statement leaves NULL are `None`.
 */
module Mutations {
  import opened Wrappers
  import opened DhtOps

  datatype DhtOpHash = DhtOpHash(raw: nat)

  /** The light projection of an op that is stored as the `DhtOp` row's blob. */
  datatype DhtOpLight = DhtOpLight(opType: DhtOpType, headerHash: HeaderHash, basis: AnyDhtHash)

  /**
   * Computations defined outside this core: the light projection of an op
   * (which hashes the header and computes the basis), the location of a
   * basis hash on the DHT ring, and a timestamp's milliseconds.
   */
  datatype Codec = Codec(
    toLight: DhtOp -> DhtOpLight,
    location: AnyDhtHash -> nat,
    toSqlMs: Timestamp -> int)

  /** The processing-order key: the op type's rank and the header timestamp. */
  datatype OpOrder = OpOrder(opType: DhtOpType, timestamp: Timestamp)

  datatype SignedHeader = SignedHeader(header: Header, signature: Signature)

  datatype StateMutationError = DhtOpErr(error: DhtOpError)

  // ---------------------------------------------------------------- rows

  datatype HeaderRow = HeaderRow(
    hash: HeaderHash,
    headerType: HeaderType,
    headerSeq: nat,
    author: AgentPubKey,
    prevHash: Option<HeaderHash>,
    entryHash: Option<EntryHash>,
    entryType: Option<EntryType>,
    privateEntry: Option<bool>,
    originalEntryHash: Option<EntryHash>,
    originalHeaderHash: Option<HeaderHash>,
    deletesEntryHash: Option<EntryHash>,
    deletesHeaderHash: Option<HeaderHash>,
    baseHash: Option<EntryHash>,
    zomeId: Option<nat>,
    tag: Option<seq<int>>,
    createLinkHash: Option<HeaderHash>,
    blob: SignedHeader)

  datatype EntryRow = EntryRow(
    hash: EntryHash,
    blob: Entry,
    tag: Option<string>,
    accessType: Option<string>,
    grantor: Option<AgentPubKey>,
    capSecret: Option<CapSecret>)

  datatype ValidationStatus = Valid | Rejected | Abandoned

  datatype OpRow = OpRow(
    hash: DhtOpHash,
    opType: DhtOpType,
    storageCenterLoc: nat,
    authoredTimestampMs: int,
    basisHash: AnyDhtHash,
    headerHash: HeaderHash,
    isAuthored: bool,
    requireReceipt: bool,
    blob: DhtOpLight,
    opOrder: OpOrder,
    validationStatus: Option<ValidationStatus>,
    validationStage: Option<nat>,
    numValidationAttempts: Option<nat>,
    lastValidationAttempt: Option<Timestamp>,
    whenIntegrated: Option<Timestamp>,
    whenIntegratedNs: Option<Timestamp>,
    receiptCount: Option<nat>,
    lastPublishTime: Option<nat>)

  /** Whether the header's entry type is private; headers without an entry are not. */
  function IsPrivate(h: Header): bool {
    match EntryData(h)
    case Some((_, et)) => Visibility(et) == Private
    case None => false
  }

  /**
   * The `Header` row `insert_header` writes: the common columns always, and
   * the columns particular to the variant.
   */
  function HeaderRowOf(header: Header, hash: HeaderHash, signature: Signature): (r: HeaderRow)
    ensures r.hash == hash && r.headerType == HeaderTypeOf(header) && r.headerSeq == HeaderSeq(header)
    ensures r.author == Author(header) && r.prevHash == PrevHeader(header)
    ensures r.blob == SignedHeader(header, signature)
    ensures r.baseHash.Some? <==> header.CreateLink?
    ensures r.zomeId.Some? <==> header.CreateLink?
    ensures r.tag.Some? <==> header.CreateLink?
    ensures header.CreateLink? ==>
      (r.baseHash == Some(header.createLink.baseAddress) &&
       r.zomeId == Some(header.createLink.zomeId) && r.tag == Some(header.createLink.tag))
    ensures r.createLinkHash.Some? <==> header.DeleteLink?
    ensures header.DeleteLink? ==> r.createLinkHash == Some(header.deleteLink.linkAddAddress)
    ensures r.entryHash.Some? <==> header.Create? || header.Update?
    ensures r.entryType.Some? <==> header.Create? || header.Update?
    ensures r.entryHash.Some? ==> (r.entryHash.value, r.entryType.value) == EntryData(header).value
    ensures r.privateEntry.Some? <==> header.Create? || header.Update?
    ensures r.privateEntry == Some(true) <==>
      (header.Create? && Visibility(header.create.entryType) == Private) ||
      (header.Update? && Visibility(header.update.entryType) == Private)
    ensures r.deletesEntryHash.Some? <==> header.Delete?
    ensures r.deletesHeaderHash.Some? <==> header.Delete?
    ensures header.Delete? ==>
      (r.deletesEntryHash == Some(header.delete.deletesEntryAddress) &&
       r.deletesHeaderHash == Some(header.delete.deletesAddress))
    ensures r.originalEntryHash.Some? <==> header.Update?
    ensures r.originalHeaderHash.Some? <==> header.Update?
    ensures header.Update? ==>
      (r.originalEntryHash == Some(header.update.originalEntryAddress) &&
       r.originalHeaderHash == Some(header.update.originalHeaderAddress))
  {
    var base := HeaderRow(hash, HeaderTypeOf(header), HeaderSeq(header), Author(header), PrevHeader(header),
      None, None, None, None, None, None, None, None, None, None, None,
      SignedHeader(header, signature));
    var private := IsPrivate(header);
    match header
    case CreateLink(l) => base.(baseHash := Some(l.baseAddress), zomeId := Some(l.zomeId), tag := Some(l.tag))
    case DeleteLink(l) => base.(createLinkHash := Some(l.linkAddAddress))
    case Create(c) => base.(entryHash := Some(c.entryHash), entryType := Some(c.entryType), privateEntry := Some(private))
    case Delete(d) => base.(deletesEntryHash := Some(d.deletesEntryAddress), deletesHeaderHash := Some(d.deletesAddress))
    case Update(u) =>
      base.(entryHash := Some(u.entryHash), entryType := Some(u.entryType),
            originalEntryHash := Some(u.originalEntryAddress), originalHeaderHash := Some(u.originalHeaderAddress),
            privateEntry := Some(private))
    case InitZomesComplete(_) => base
    case Dna(_) => base
    case AgentValidationPkg(_) => base
    case OpenChain(_) => base
    case CloseChain(_) => base
  }

  /** Headers that carry no variant columns at all. */
  lemma PlainHeadersHaveNoVariantColumns(header: Header, hash: HeaderHash, signature: Signature)
    requires header.Dna? || header.AgentValidationPkg? || header.InitZomesComplete? ||
             header.OpenChain? || header.CloseChain?
    ensures var r := HeaderRowOf(header, hash, signature);
      r == HeaderRow(hash, HeaderTypeOf(header), HeaderSeq(header), Author(header), PrevHeader(header),
        None, None, None, None, None, None, None, None, None, None, None, SignedHeader(header, signature))
  {
  }

  /**
   * The `Entry` row `insert_entry` writes: capability grants store their tag,
   * access kind and (unless unrestricted) secret; claims store tag, grantor and
   * secret; every other entry leaves the four capability columns NULL.
   * Grant functions and assignees are not stored.
   */
  function EntryRowOf(entry: Entry, hash: EntryHash): (r: EntryRow)
    ensures r.hash == hash && r.blob == entry
    ensures r.tag.Some? <==> entry.CapGrant? || entry.CapClaim?
    ensures r.tag.Some? ==> r.tag.value == entry.tag
    ensures r.accessType.Some? <==> entry.CapGrant?
    ensures entry.CapGrant? ==>
      r.accessType == Some(match entry.access
                           case Unrestricted => "unrestricted"
                           case Transferable(_) => "transferable"
                           case Assigned(_, _) => "assigned")
    ensures r.grantor.Some? <==> entry.CapClaim?
    ensures entry.CapClaim? ==> r.grantor == Some(entry.grantor)
    ensures r.capSecret.Some? <==> entry.CapClaim? || (entry.CapGrant? && !entry.access.Unrestricted?)
    ensures entry.CapClaim? ==> r.capSecret == Some(entry.secret)
    ensures entry.CapGrant? && !entry.access.Unrestricted? ==> r.capSecret == Some(entry.access.secret)
  {
    match entry
    case CapGrant(tag, access, _) =>
      (match access
       case Unrestricted => EntryRow(hash, entry, Some(tag), Some("unrestricted"), None, None)
       case Transferable(secret) => EntryRow(hash, entry, Some(tag), Some("transferable"), None, Some(secret))
       case Assigned(secret, _) => EntryRow(hash, entry, Some(tag), Some("assigned"), None, Some(secret)))
    case CapClaim(tag, grantor, secret) => EntryRow(hash, entry, Some(tag), None, Some(grantor), Some(secret))
    case _ => EntryRow(hash, entry, None, None, None, None)
  }

  /** Two grants that differ only in their functions or assignees get the same capability columns. */
  lemma GrantFunctionsAndAssigneesNotStored(
    hash: EntryHash, tag: string, secret: CapSecret,
    f1: set<(string, string)>, f2: set<(string, string)>, a1: set<AgentPubKey>, a2: set<AgentPubKey>)
    ensures var r1 := EntryRowOf(CapGrant(tag, Assigned(secret, a1), f1), hash);
      var r2 := EntryRowOf(CapGrant(tag, Assigned(secret, a2), f2), hash);
      (r1.tag, r1.accessType, r1.grantor, r1.capSecret) == (r2.tag, r2.accessType, r2.grantor, r2.capSecret)
  {
  }

  /**
   * The `DhtOp` row `insert_op_lite` writes: basis, location, type and header
   * from the light op, the given order and authoring time, no receipt
   * required, and every bookkeeping column NULL.
   */
  function OpRowOf(light: DhtOpLight, hash: DhtOpHash, isAuthored: bool, order: OpOrder,
                   timestamp: Timestamp, codec: Codec): (r: OpRow)
    ensures r.hash == hash && r.opType == light.opType && r.headerHash == light.headerHash
    ensures r.basisHash == light.basis && r.storageCenterLoc == codec.location(light.basis)
    ensures r.authoredTimestampMs == codec.toSqlMs(timestamp)
    ensures r.isAuthored == isAuthored && !r.requireReceipt && r.blob == light && r.opOrder == order
    ensures r.validationStatus.None? && r.validationStage.None? && r.numValidationAttempts.None?
    ensures r.lastValidationAttempt.None? && r.whenIntegrated.None? && r.whenIntegratedNs.None?
    ensures r.receiptCount.None? && r.lastPublishTime.None?
  {
    OpRow(hash, light.opType, codec.location(light.basis), codec.toSqlMs(timestamp), light.basis,
      light.headerHash, isAuthored, false, light, order,
      None, None, None, None, None, None, None, None)
  }

  // ------------------------------------------------------ validation stage

  datatype ValidationLimboStatus =
    | Pending
    | AwaitingSysDeps(missing: AnyDhtHash)
    | SysValidated
    | AwaitingAppDeps(missingDeps: seq<AnyDhtHash>)
    | AwaitingIntegration

  /** The `validation_stage` column value of a limbo status. */
  function StageCode(status: ValidationLimboStatus): (r: Option<nat>)
    ensures r.None? <==> status.Pending?
    ensures r.Some? ==> r.value < 4
  {
    match status
    case Pending => None
    case AwaitingSysDeps(_) => Some(0)
    case SysValidated => Some(1)
    case AwaitingAppDeps(_) => Some(2)
    case AwaitingIntegration => Some(3)
  }

  /** The position of a status on the path from `Pending` to `AwaitingIntegration`. */
  function LimboRank(status: ValidationLimboStatus): nat {
    match status
    case Pending => 0
    case AwaitingSysDeps(_) => 1
    case SysValidated => 2
    case AwaitingAppDeps(_) => 3
    case AwaitingIntegration => 4
  }

  /** Stage codes ordered with NULL first. */
  predicate StageBefore(a: Option<nat>, b: Option<nat>) {
    match (a, b)
    case (None, Some(_)) => true
    case (Some(x), Some(y)) => x < y
    case _ => false
  }

  /**
   * The stored stage orders ops exactly as the limbo path does, so two
   * statuses share a code only when they are at the same step.
   */
  lemma StageCodeFollowsLimboPath(a: ValidationLimboStatus, b: ValidationLimboStatus)
    ensures StageBefore(StageCode(a), StageCode(b)) <==> LimboRank(a) < LimboRank(b)
    ensures StageCode(a) == StageCode(b) <==> LimboRank(a) == LimboRank(b)
  {
  }

  // ------------------------------------------------------- single-row updates

  /** The single-row `DhtOp` updates, each with the columns it sets. */
  datatype OpUpdate =
    | SetValidationStatus(status: ValidationStatus)
    | SetRequireReceipt(required: bool)
    | SetValidationStage(stage: ValidationLimboStatus, now: Timestamp)
    | SetWhenIntegrated(time: Timestamp)
    | SetLastPublishTime(unixSecs: nat)
    | SetReceiptCount(count: nat)
    | AddOneReceiptCount

  /** `IFNULL(column, 0)`. */
  function OrZero(n: Option<nat>): nat {
    if n.Some? then n.value else 0
  }

  /** The row after one update statement matched it. */
  function ApplyUpdate(row: OpRow, u: OpUpdate): OpRow {
    match u
    case SetValidationStatus(s) => row.(validationStatus := Some(s))
    case SetRequireReceipt(b) => row.(requireReceipt := b)
    case SetValidationStage(stage, now) =>
      row.(numValidationAttempts := Some(OrZero(row.numValidationAttempts) + 1),
           lastValidationAttempt := Some(now),
           validationStage := StageCode(stage))
    case SetWhenIntegrated(t) => row.(whenIntegratedNs := Some(t), whenIntegrated := Some(t))
    case SetLastPublishTime(secs) => row.(lastPublishTime := Some(secs))
    case SetReceiptCount(c) => row.(receiptCount := Some(c))
    case AddOneReceiptCount => row.(receiptCount := Some(OrZero(row.receiptCount) + 1))
  }

  /** `UPDATE DhtOp SET ... WHERE hash = :hash`: only a matching row changes. */
  function UpdateWhere(ops: map<DhtOpHash, OpRow>, hash: DhtOpHash, u: OpUpdate): (r: map<DhtOpHash, OpRow>)
    ensures r.Keys == ops.Keys
    ensures forall h :: h in ops && h != hash ==> r[h] == ops[h]
    ensures hash in ops ==> r[hash] == ApplyUpdate(ops[hash], u)
  {
    if hash in ops then ops[hash := ApplyUpdate(ops[hash], u)] else ops
  }

  /** The columns an op row is created with and no update touches. */
  function Identity(row: OpRow): (DhtOpHash, DhtOpType, nat, int, AnyDhtHash, HeaderHash, bool, DhtOpLight, OpOrder) {
    (row.hash, row.opType, row.storageCenterLoc, row.authoredTimestampMs, row.basisHash,
     row.headerHash, row.isAuthored, row.blob, row.opOrder)
  }

  /** The bookkeeping updates leave every identity column of the row as it was. */
  lemma UpdatesKeepIdentity(row: OpRow, u: OpUpdate)
    ensures Identity(ApplyUpdate(row, u)) == Identity(row)
  {
  }

  /**
   * Every update but the two counters is idempotent; the counters are not:
   * applying them twice counts twice.
   */
  lemma IdempotentExceptCounters(row: OpRow, u: OpUpdate)
    ensures !(u.SetValidationStage? || u.AddOneReceiptCount?) ==>
      ApplyUpdate(ApplyUpdate(row, u), u) == ApplyUpdate(row, u)
    ensures u.AddOneReceiptCount? ==>
      ApplyUpdate(ApplyUpdate(row, u), u).receiptCount == Some(OrZero(row.receiptCount) + 2)
    ensures u.SetValidationStage? ==>
      ApplyUpdate(ApplyUpdate(row, u), u).numValidationAttempts == Some(OrZero(row.numValidationAttempts) + 2)
  {
  }

  function Repeat(u: OpUpdate, n: nat): (r: seq<OpUpdate>)
    ensures |r| == n && forall i :: 0 <= i < n ==> r[i] == u
  {
    if n == 0 then [] else [u] + Repeat(u, n - 1)
  }

  function ApplyAll(row: OpRow, us: seq<OpUpdate>): OpRow
    decreases |us|
  {
    if us == [] then row else ApplyAll(ApplyUpdate(row, us[0]), us[1..])
  }

  /** `n` receipts counted one at a time raise the count by exactly `n`, NULL counting as 0. */
  lemma {:induction false} ReceiptsAddUp(row: OpRow, n: nat)
    ensures ApplyAll(row, Repeat(AddOneReceiptCount, n)).receiptCount ==
      if n == 0 then row.receiptCount else Some(OrZero(row.receiptCount) + n)
    ensures Identity(ApplyAll(row, Repeat(AddOneReceiptCount, n))) == Identity(row)
    decreases n
  {
    if n > 0 {
      var us := Repeat(AddOneReceiptCount, n);
      assert us[1..] == Repeat(AddOneReceiptCount, n - 1);
      ReceiptsAddUp(ApplyUpdate(row, AddOneReceiptCount), n - 1);
    }
  }

  /**
   * A sequence of stage transitions leaves the stage of the last one and
   * counts one attempt per transition.
   */
  lemma {:induction false} StageAttemptsAddUp(row: OpRow, stages: seq<ValidationLimboStatus>, now: Timestamp)
    requires stages != []
    ensures var r := ApplyAll(row, StageUpdates(stages, now));
      r.validationStage == StageCode(stages[|stages| - 1]) &&
      r.numValidationAttempts == Some(OrZero(row.numValidationAttempts) + |stages|) &&
      r.lastValidationAttempt == Some(now)
    decreases |stages|
  {
    var us := StageUpdates(stages, now);
    var row' := ApplyUpdate(row, us[0]);
    if |stages| > 1 {
      assert us[1..] == StageUpdates(stages[1..], now);
      StageAttemptsAddUp(row', stages[1..], now);
    }
  }

  function StageUpdates(stages: seq<ValidationLimboStatus>, now: Timestamp): (r: seq<OpUpdate>)
    ensures |r| == |stages| && forall i :: 0 <= i < |stages| ==> r[i] == SetValidationStage(stages[i], now)
  {
    if stages == [] then [] else [SetValidationStage(stages[0], now)] + StageUpdates(stages[1..], now)
  }

  /** `INSERT` into a table whose primary key ignores conflicts: an existing row stays. */
  function InsertIgnore<K, R>(table: map<K, R>, key: K, row: R): (r: map<K, R>)
    ensures key in r && r.Keys == table.Keys + {key}
    ensures key in table ==> r == table
    ensures key !in table ==> r[key] == row && forall k :: k in table ==> r[k] == table[k]
  {
    if key in table then table else table[key := row]
  }

  // --------------------------------------------------------- transactions

  /** The statements a transaction executes, in order. */
  datatype Statement =
    | InsertEntryRow(entry: EntryHash)
    | InsertHeaderRow(header: HeaderHash)
    | InsertDhtOpRow(op: DhtOpHash)
    | UpdateDhtOpRow(op: DhtOpHash, update: OpUpdate)

  class Txn {
    var entries: map<EntryHash, EntryRow>
    var headers: map<HeaderHash, HeaderRow>
    var ops: map<DhtOpHash, OpRow>
    var log: seq<Statement>

    /** Every row is stored under its own `hash` column. */
    ghost predicate Valid()
      reads this
    {
      && (forall h :: h in entries ==> entries[h].hash == h)
      && (forall h :: h in headers ==> headers[h].hash == h)
      && (forall h :: h in ops ==> ops[h].hash == h)
    }

    constructor (entries: map<EntryHash, EntryRow>, headers: map<HeaderHash, HeaderRow>, ops: map<DhtOpHash, OpRow>)
      requires forall h :: h in entries ==> entries[h].hash == h
      requires forall h :: h in headers ==> headers[h].hash == h
      requires forall h :: h in ops ==> ops[h].hash == h
      ensures Valid()
      ensures this.entries == entries && this.headers == headers && this.ops == ops && log == []
    {
      this.entries, this.headers, this.ops := entries, headers, ops;
      log := [];
    }

    /** `insert_entry`: the capability columns are worked out first, then one row is inserted. */
    method InsertEntry(entry: Entry, hash: EntryHash)
      requires Valid()
      modifies this
      ensures Valid()
      ensures entries == InsertIgnore(old(entries), hash, EntryRowOf(entry, hash))
      ensures headers == old(headers) && ops == old(ops)
      ensures log == old(log) + [InsertEntryRow(hash)]
    {
      var capSecret: Option<CapSecret> := None;
      var capAccess: Option<string> := None;
      var capGrantor: Option<AgentPubKey> := None;
      var capTag: Option<string>;
      match entry {
        case CapGrant(tag, access, _) =>
          match access {
            case Unrestricted =>
              capAccess := Some("unrestricted");
            case Transferable(secret) =>
              capSecret := Some(secret);
              capAccess := Some("transferable");
            case Assigned(secret, _) =>
              capSecret := Some(secret);
              capAccess := Some("assigned");
          }
          capTag := Some(tag);
        case CapClaim(tag, grantor, secret) =>
          capSecret := Some(secret);
          capGrantor := Some(grantor);
          capTag := Some(tag);
        case AgentEntry(_) =>
          capTag := None;
        case AppEntry(_) =>
          capTag := None;
      }
      var row := EntryRow(hash, entry, capTag, capAccess, capGrantor, capSecret);
      assert row == EntryRowOf(entry, hash);
      if hash !in entries {
        entries := entries[hash := row];
      }
      log := log + [InsertEntryRow(hash)];
    }

    /** `insert_header`: one row with the variant's columns. */
    method InsertHeader(header: SignedHeaderHashed)
      requires Valid()
      modifies this
      ensures Valid()
      ensures headers == InsertIgnore(old(headers), header.hash,
                                      HeaderRowOf(header.header, header.hash, header.signature))
      ensures entries == old(entries) && ops == old(ops)
      ensures log == old(log) + [InsertHeaderRow(header.hash)]
    {
      var row := HeaderRowOf(header.header, header.hash, header.signature);
      if header.hash !in headers {
        headers := headers[header.hash := row];
      }
      log := log + [InsertHeaderRow(header.hash)];
    }

    /** `insert_op_lite`: one `DhtOp` row. */
    method InsertOpLite(light: DhtOpLight, hash: DhtOpHash, isAuthored: bool, order: OpOrder,
                        timestamp: Timestamp, codec: Codec)
      requires Valid()
      modifies this
      ensures Valid()
      ensures ops == InsertIgnore(old(ops), hash, OpRowOf(light, hash, isAuthored, order, timestamp, codec))
      ensures entries == old(entries) && headers == old(headers)
      ensures log == old(log) + [InsertDhtOpRow(hash)]
    {
      var row := OpRowOf(light, hash, isAuthored, order, timestamp, codec);
      if hash !in ops {
        ops := ops[hash := row];
      }
      log := log + [InsertDhtOpRow(hash)];
    }

    /**
     * `insert_op`: the entry (if the op carries one) under the hash the header
     * declares, then the header under the light op's header hash, then the op
     * row.  An entry whose header declares no entry hash fails before any
     * statement runs.
     */
    method InsertOp(op: DhtOp, hash: DhtOpHash, isAuthored: bool, codec: Codec)
      returns (r: Result<(), StateMutationError>)
      requires Valid()
      modifies this
      ensures Valid()
      ensures r.Err? <==> OpEntry(op).Some? && EntryData(OpHeader(op)).None?
      ensures r.Err? ==>
        (r.error == DhtOpErr(HeaderWithoutEntry(OpHeader(op))) &&
         entries == old(entries) && headers == old(headers) && ops == old(ops) && log == old(log))
      ensures r.Ok? ==>
        var light := codec.toLight(op);
        var header := OpHeader(op);
        && entries == (if OpEntry(op).Some?
                       then InsertIgnore(old(entries), EntryData(header).value.0,
                                         EntryRowOf(OpEntry(op).value, EntryData(header).value.0))
                       else old(entries))
        && headers == InsertIgnore(old(headers), light.headerHash, HeaderRowOf(header, light.headerHash, op.sig))
        && ops == InsertIgnore(old(ops), hash,
                   OpRowOf(light, hash, isAuthored, OpOrder(light.opType, HeaderTimestamp(header)),
                           HeaderTimestamp(header), codec))
        && log == old(log) + (if OpEntry(op).Some? then [InsertEntryRow(EntryData(header).value.0)] else [])
                           + [InsertHeaderRow(light.headerHash), InsertDhtOpRow(hash)]
    {
      var light := codec.toLight(op);
      var header := OpHeader(op);
      var timestamp := HeaderTimestamp(header);
      var signature := op.sig;
      var maybeEntry := OpEntry(op);
      if maybeEntry.Some? {
        var declared := EntryData(header);
        if declared.None? {
          return Err(DhtOpErr(HeaderWithoutEntry(header)));
        }
        InsertEntry(maybeEntry.value, declared.value.0);
      }
      var headerHashed := SignedHeaderHashed(header, light.headerHash, signature);
      var order := OpOrder(light.opType, HeaderTimestamp(headerHashed.header));
      InsertHeader(headerHashed);
      InsertOpLite(light, hash, isAuthored, order, timestamp, codec);
      return Ok(());
    }

    /** One `dht_op_update`-style statement on the row whose hash matches. */
    method Update(hash: DhtOpHash, u: OpUpdate)
      requires Valid()
      modifies this
      ensures Valid()
      ensures ops == UpdateWhere(old(ops), hash, u)
      ensures entries == old(entries) && headers == old(headers)
      ensures log == old(log) + [UpdateDhtOpRow(hash, u)]
    {
      if hash in ops {
        UpdatesKeepIdentity(ops[hash], u);
        ops := ops[hash := ApplyUpdate(ops[hash], u)];
      }
      log := log + [UpdateDhtOpRow(hash, u)];
    }

    method SetValidationStatus(hash: DhtOpHash, status: ValidationStatus)
      requires Valid()
      modifies this
      ensures Valid() && ops == UpdateWhere(old(ops), hash, OpUpdate.SetValidationStatus(status))
      ensures entries == old(entries) && headers == old(headers)
      ensures log == old(log) + [UpdateDhtOpRow(hash, OpUpdate.SetValidationStatus(status))]
    {
      Update(hash, OpUpdate.SetValidationStatus(status));
    }

    method SetRequireReceipt(hash: DhtOpHash, required: bool)
      requires Valid()
      modifies this
      ensures Valid() && ops == UpdateWhere(old(ops), hash, OpUpdate.SetRequireReceipt(required))
      ensures entries == old(entries) && headers == old(headers)
      ensures log == old(log) + [UpdateDhtOpRow(hash, OpUpdate.SetRequireReceipt(required))]
    {
      Update(hash, OpUpdate.SetRequireReceipt(required));
    }

    /**
     * `set_validation_stage`: stores the stage code, adds one attempt (NULL
     * counting as 0) and records `now`, the time of the attempt.
     */
    method SetValidationStage(hash: DhtOpHash, status: ValidationLimboStatus, now: Timestamp)
      requires Valid()
      modifies this
      ensures Valid() && ops == UpdateWhere(old(ops), hash, OpUpdate.SetValidationStage(status, now))
      ensures hash in ops ==>
        (ops[hash].validationStage == StageCode(status) &&
         ops[hash].numValidationAttempts == Some(OrZero(old(ops[hash].numValidationAttempts)) + 1) &&
         ops[hash].lastValidationAttempt == Some(now))
      ensures entries == old(entries) && headers == old(headers)
      ensures log == old(log) + [UpdateDhtOpRow(hash, OpUpdate.SetValidationStage(status, now))]
    {
      Update(hash, OpUpdate.SetValidationStage(status, now));
    }

    /** `set_when_integrated`: both integration columns from the same time. */
    method SetWhenIntegrated(hash: DhtOpHash, time: Timestamp)
      requires Valid()
      modifies this
      ensures Valid() && ops == UpdateWhere(old(ops), hash, OpUpdate.SetWhenIntegrated(time))
      ensures hash in ops ==> ops[hash].whenIntegrated == ops[hash].whenIntegratedNs == Some(time)
      ensures entries == old(entries) && headers == old(headers)
      ensures log == old(log) + [UpdateDhtOpRow(hash, OpUpdate.SetWhenIntegrated(time))]
    {
      Update(hash, OpUpdate.SetWhenIntegrated(time));
    }

    method SetLastPublishTime(hash: DhtOpHash, unixSecs: nat)
      requires Valid()
      modifies this
      ensures Valid() && ops == UpdateWhere(old(ops), hash, OpUpdate.SetLastPublishTime(unixSecs))
      ensures entries == old(entries) && headers == old(headers)
      ensures log == old(log) + [UpdateDhtOpRow(hash, OpUpdate.SetLastPublishTime(unixSecs))]
    {
      Update(hash, OpUpdate.SetLastPublishTime(unixSecs));
    }

    method SetReceiptCount(hash: DhtOpHash, count: nat)
      requires Valid()
      modifies this
      ensures Valid() && ops == UpdateWhere(old(ops), hash, OpUpdate.SetReceiptCount(count))
      ensures entries == old(entries) && headers == old(headers)
      ensures log == old(log) + [UpdateDhtOpRow(hash, OpUpdate.SetReceiptCount(count))]
    {
      Update(hash, OpUpdate.SetReceiptCount(count));
    }

    /** `add_one_receipt_count`: one statement that raises the count by one, NULL counting as 0. */
    method AddOneReceiptCount(hash: DhtOpHash)
      requires Valid()
      modifies this
      ensures Valid() && ops == UpdateWhere(old(ops), hash, OpUpdate.AddOneReceiptCount)
      ensures hash in ops ==> ops[hash].receiptCount == Some(OrZero(old(ops[hash].receiptCount)) + 1)
      ensures entries == old(entries) && headers == old(headers)
      ensures log == old(log) + [UpdateDhtOpRow(hash, OpUpdate.AddOneReceiptCount)]
    {
      Update(hash, OpUpdate.AddOneReceiptCount);
    }
  }

  // -------------------------------------------------------------- scratch

  /** The in-memory scratch of a workspace: headers in insertion order, entries by hash. */
  class Scratch {
    var headers: seq<SignedHeaderHashed>
    var entries: map<EntryHash, Entry>

    constructor ()
      ensures headers == [] && entries == map[]
    {
      headers := [];
      entries := map[];
    }

    method AddHeader(header: SignedHeaderHashed)
      modifies this
      ensures headers == old(headers) + [header] && entries == old(entries)
    {
      headers := headers + [header];
    }

    method AddEntry(hash: EntryHash, entry: Entry)
      modifies this
      ensures entries == old(entries)[hash := entry] && headers == old(headers)
    {
      entries := entries[hash := entry];
    }
  }

  /**
   * `insert_op_scratch`: the op's entry under the hash its header declares,
   * then its header under the light op's header hash.  An entry whose header
   * declares no entry hash fails and leaves the scratch untouched.
   */
  method InsertOpScratch(scratch: Scratch, op: DhtOp, codec: Codec) returns (r: Result<(), StateMutationError>)
    modifies scratch
    ensures r.Err? <==> OpEntry(op).Some? && EntryData(OpHeader(op)).None?
    ensures r.Err? ==>
      (r.error == DhtOpErr(HeaderWithoutEntry(OpHeader(op))) &&
       scratch.headers == old(scratch.headers) && scratch.entries == old(scratch.entries))
    ensures r.Ok? ==>
      && scratch.headers == old(scratch.headers) +
           [SignedHeaderHashed(OpHeader(op), codec.toLight(op).headerHash, op.sig)]
      && scratch.entries == (if OpEntry(op).Some?
                             then old(scratch.entries)[EntryData(OpHeader(op)).value.0 := OpEntry(op).value]
                             else old(scratch.entries))
  {
    var light := codec.toLight(op);
    var header := OpHeader(op);
    var signature := op.sig;
    var maybeEntry := OpEntry(op);
    if maybeEntry.Some? {
      var declared := EntryData(header);
      if declared.None? {
        return Err(DhtOpErr(HeaderWithoutEntry(header)));
      }
      scratch.AddEntry(declared.value.0, maybeEntry.value);
    }
    scratch.AddHeader(SignedHeaderHashed(header, light.headerHash, signature));
    return Ok(());
  }

  /**
   * `insert_element_scratch`: the element's header, then its entry (if any)
   * under the entry's own content hash.
   */
  method InsertElementScratch(scratch: Scratch, element: Element, entryHash: Entry -> EntryHash)
    modifies scratch
    ensures scratch.headers == old(scratch.headers) + [element.signedHeader]
    ensures scratch.entries == (if element.entry.Some?
                                then old(scratch.entries)[entryHash(element.entry.value) := element.entry.value]
                                else old(scratch.entries))
  {
    scratch.AddHeader(element.signedHeader);
    if element.entry.Some? {
      scratch.AddEntry(entryHash(element.entry.value), element.entry.value);
    }
  }
}
