/**
 * Chain headers, entries and the DHT operations derived from them:
 * `ops_from_element` (the fixed, ordered op list per header variant) and
 * `dht_basis` (the address an op is routed to).
 *
 * Header variants carry the names `Create`, `Update`, `Delete`, `CreateLink`,
 * `DeleteLink`, `OpenChain`, `CloseChain`; the older names `EntryCreate`,
 * `EntryUpdate`, `EntryDelete`, `LinkAdd`, `LinkRemove`, `ChainOpen`,
 * `ChainClose` denote the same variants.
 */
module DhtOps {
  import opened Wrappers

  type AgentPubKey = nat
  type Signature = nat
  type Timestamp = int
  type DnaHash = nat
  type CapSecret = nat

  datatype HeaderHash = HeaderHash(raw: nat)
  datatype EntryHash = EntryHash(raw: nat)

  /** An address in the DHT: an entry, a header or an agent. */
  datatype AnyDhtHash =
    | EntryAddress(entry: EntryHash)
    | HeaderAddress(header: HeaderHash)
    | AgentAddress(agent: AgentPubKey)

  datatype EntryVisibility = Public | Private

  datatype AppEntryType = AppEntryType(id: nat, zomeId: nat, visibility: EntryVisibility)

  datatype EntryType = AgentPubKeyType | App(app: AppEntryType) | CapClaimType | CapGrantType

  /** Visibility of an entry type: app types declare it, capability entries are private. */
  function Visibility(t: EntryType): EntryVisibility {
    match t
    case AgentPubKeyType => Public
    case App(a) => a.visibility
    case CapClaimType => Private
    case CapGrantType => Private
  }

  datatype CapAccess =
    | Unrestricted
    | Transferable(secret: CapSecret)
    | Assigned(secret: CapSecret, assignees: set<AgentPubKey>)

  datatype Entry =
    | AgentEntry(key: AgentPubKey)
    | AppEntry(bytes: seq<int>)
    | CapClaim(tag: string, grantor: AgentPubKey, secret: CapSecret)
    | CapGrant(tag: string, access: CapAccess, functions: set<(string, string)>)

  /** The fields every header after the first carries. */
  datatype Common = Common(author: AgentPubKey, timestamp: Timestamp, headerSeq: nat, prevHeader: HeaderHash)

  datatype UpdateBasis = BasisHeader | BasisEntry

  datatype DnaHeader = DnaHeader(author: AgentPubKey, timestamp: Timestamp, hash: DnaHash)
  datatype AgentValidationPkgHeader = AgentValidationPkgHeader(common: Common, membraneProof: Option<seq<int>>)
  datatype InitZomesCompleteHeader = InitZomesCompleteHeader(common: Common)
  datatype OpenChainHeader = OpenChainHeader(common: Common, prevDnaHash: DnaHash)
  datatype CloseChainHeader = CloseChainHeader(common: Common, newDnaHash: DnaHash)
  datatype CreateHeader = CreateHeader(common: Common, entryType: EntryType, entryHash: EntryHash)
  /** `originalHeaderAddress` is the older `replaces_address`. */
  datatype UpdateHeader = UpdateHeader(
    common: Common,
    originalHeaderAddress: HeaderHash,
    originalEntryAddress: EntryHash,
    updateBasis: UpdateBasis,
    entryType: EntryType,
    entryHash: EntryHash)
  datatype DeleteHeader = DeleteHeader(common: Common, deletesAddress: HeaderHash, deletesEntryAddress: EntryHash)
  datatype CreateLinkHeader = CreateLinkHeader(
    common: Common, baseAddress: EntryHash, targetAddress: EntryHash, zomeId: nat, tag: seq<int>)
  datatype DeleteLinkHeader = DeleteLinkHeader(common: Common, linkAddAddress: HeaderHash, baseAddress: EntryHash)

  datatype Header =
    | Dna(dna: DnaHeader)
    | AgentValidationPkg(avp: AgentValidationPkgHeader)
    | InitZomesComplete(izc: InitZomesCompleteHeader)
    | OpenChain(open: OpenChainHeader)
    | CloseChain(close: CloseChainHeader)
    | Create(create: CreateHeader)
    | Update(update: UpdateHeader)
    | Delete(delete: DeleteHeader)
    | CreateLink(createLink: CreateLinkHeader)
    | DeleteLink(deleteLink: DeleteLinkHeader)

  /** The `type` column value of a header. */
  datatype HeaderType =
    | DnaType | AgentValidationPkgType | InitZomesCompleteType | OpenChainType | CloseChainType
    | CreateType | UpdateType | DeleteType | CreateLinkType | DeleteLinkType

  function HeaderTypeOf(h: Header): HeaderType {
    match h
    case Dna(_) => DnaType
    case AgentValidationPkg(_) => AgentValidationPkgType
    case InitZomesComplete(_) => InitZomesCompleteType
    case OpenChain(_) => OpenChainType
    case CloseChain(_) => CloseChainType
    case Create(_) => CreateType
    case Update(_) => UpdateType
    case Delete(_) => DeleteType
    case CreateLink(_) => CreateLinkType
    case DeleteLink(_) => DeleteLinkType
  }

  function CommonOf(h: Header): Option<Common> {
    match h
    case Dna(_) => None
    case AgentValidationPkg(x) => Some(x.common)
    case InitZomesComplete(x) => Some(x.common)
    case OpenChain(x) => Some(x.common)
    case CloseChain(x) => Some(x.common)
    case Create(x) => Some(x.common)
    case Update(x) => Some(x.common)
    case Delete(x) => Some(x.common)
    case CreateLink(x) => Some(x.common)
    case DeleteLink(x) => Some(x.common)
  }

  function Author(h: Header): AgentPubKey {
    if h.Dna? then h.dna.author else CommonOf(h).value.author
  }

  function HeaderTimestamp(h: Header): Timestamp {
    if h.Dna? then h.dna.timestamp else CommonOf(h).value.timestamp
  }

  /** The chain position: the `Dna` header is the first, at 0. */
  function HeaderSeq(h: Header): nat {
    if h.Dna? then 0 else CommonOf(h).value.headerSeq
  }

  /** The previous header; the `Dna` header has none. */
  function PrevHeader(h: Header): (r: Option<HeaderHash>)
    ensures r.None? <==> h.Dna?
  {
    if h.Dna? then None else Some(CommonOf(h).value.prevHeader)
  }

  /** The entry a header declares, with its type: only `Create` and `Update` declare one. */
  function EntryData(h: Header): (r: Option<(EntryHash, EntryType)>)
    ensures r.Some? <==> (h.Create? || h.Update?)
  {
    match h
    case Create(c) => Some((c.entryHash, c.entryType))
    case Update(u) => Some((u.entryHash, u.entryType))
    case _ => None
  }

  datatype SignedHeaderHashed = SignedHeaderHashed(header: Header, hash: HeaderHash, signature: Signature)

  /** A header with its signature and, optionally, its entry. */
  datatype Element = Element(signedHeader: SignedHeaderHashed, entry: Option<Entry>)

  datatype NewEntryHeader = NewCreate(create: CreateHeader) | NewUpdate(update: UpdateHeader)

  datatype DhtOp =
    | StoreElement(sig: Signature, header: Header, maybeEntry: Option<Entry>)
    | StoreEntry(sig: Signature, newEntryHeader: NewEntryHeader, entry: Entry)
    | RegisterAgentActivity(sig: Signature, header: Header)
    | RegisterReplacedBy(sig: Signature, update: UpdateHeader, maybeEntry: Option<Entry>)
    | RegisterDeletedBy(sig: Signature, delete: DeleteHeader)
    | RegisterAddLink(sig: Signature, createLink: CreateLinkHeader)
    | RegisterRemoveLink(sig: Signature, deleteLink: DeleteLinkHeader)

  datatype DhtOpType =
    | StoreElementType | StoreEntryType | RegisterAgentActivityType | RegisterReplacedByType
    | RegisterDeletedByType | RegisterAddLinkType | RegisterRemoveLinkType

  function OpType(op: DhtOp): DhtOpType {
    match op
    case StoreElement(_, _, _) => StoreElementType
    case StoreEntry(_, _, _) => StoreEntryType
    case RegisterAgentActivity(_, _) => RegisterAgentActivityType
    case RegisterReplacedBy(_, _, _) => RegisterReplacedByType
    case RegisterDeletedBy(_, _) => RegisterDeletedByType
    case RegisterAddLink(_, _) => RegisterAddLinkType
    case RegisterRemoveLink(_, _) => RegisterRemoveLinkType
  }

  /** The full header an op is about (`DhtOp::header`). */
  function OpHeader(op: DhtOp): Header {
    match op
    case StoreElement(_, h, _) => h
    case StoreEntry(_, NewCreate(c), _) => Create(c)
    case StoreEntry(_, NewUpdate(u), _) => Update(u)
    case RegisterAgentActivity(_, h) => h
    case RegisterReplacedBy(_, u, _) => Update(u)
    case RegisterDeletedBy(_, d) => Delete(d)
    case RegisterAddLink(_, l) => CreateLink(l)
    case RegisterRemoveLink(_, l) => DeleteLink(l)
  }

  /** The entry content an op carries (`DhtOp::entry`). */
  function OpEntry(op: DhtOp): Option<Entry> {
    match op
    case StoreElement(_, _, e) => e
    case StoreEntry(_, _, e) => Some(e)
    case RegisterReplacedBy(_, _, e) => e
    case _ => None
  }

  datatype DhtOpError = HeaderWithoutEntry(header: Header)

  /**
   * `ops_from_element`: every header yields `StoreElement` then
   * `RegisterAgentActivity`, followed by the ops particular to its variant.
   * `Create` and `Update` need the entry content.
   */
  function OpsFromElement(element: Element): (r: Result<seq<DhtOp>, DhtOpError>)
    ensures r.Err? <==> (element.signedHeader.header.Create? || element.signedHeader.header.Update?)
                        && element.entry.None?
    ensures r.Err? ==> r.error == HeaderWithoutEntry(element.signedHeader.header)
    ensures r.Ok? ==> 2 <= |r.value| <= 4
    ensures r.Ok? ==> forall op :: op in r.value ==> op.sig == element.signedHeader.signature
    ensures r.Ok? ==> forall op :: op in r.value ==> OpHeader(op) == element.signedHeader.header
  {
    var sig := element.signedHeader.signature;
    var header := element.signedHeader.header;
    var common := [StoreElement(sig, header, element.entry), RegisterAgentActivity(sig, header)];
    match header
    case Dna(_) => Ok(common)
    case AgentValidationPkg(_) => Ok(common)
    case InitZomesComplete(_) => Ok(common)
    case OpenChain(_) => Ok(common)
    case CloseChain(_) => Ok(common)
    case CreateLink(l) => Ok(common + [RegisterAddLink(sig, l)])
    case DeleteLink(l) => Ok(common + [RegisterRemoveLink(sig, l)])
    case Update(u) =>
      if element.entry.None? then Err(HeaderWithoutEntry(header))
      else Ok(common + [StoreEntry(sig, NewUpdate(u), element.entry.value),
                        RegisterReplacedBy(sig, u, element.entry)])
    case Create(c) =>
      if element.entry.None? then Err(HeaderWithoutEntry(header))
      else Ok(common + [StoreEntry(sig, NewCreate(c), element.entry.value)])
    case Delete(d) => Ok(common + [RegisterDeletedBy(sig, d)])
  }

  /**
   * The expected op list of each variant, written out literally: the
   * reference the derivation is checked against.
   */
  function ExpectedOps(sig: Signature, header: Header, entry: Entry): seq<DhtOp> {
    match header
    case Create(c) =>
      [StoreElement(sig, header, Some(entry)), RegisterAgentActivity(sig, header),
       StoreEntry(sig, NewCreate(c), entry)]
    case Update(u) =>
      [StoreElement(sig, header, Some(entry)), RegisterAgentActivity(sig, header),
       StoreEntry(sig, NewUpdate(u), entry), RegisterReplacedBy(sig, u, Some(entry))]
    case Delete(d) =>
      [StoreElement(sig, header, None), RegisterAgentActivity(sig, header), RegisterDeletedBy(sig, d)]
    case CreateLink(l) =>
      [StoreElement(sig, header, None), RegisterAgentActivity(sig, header), RegisterAddLink(sig, l)]
    case DeleteLink(l) =>
      [StoreElement(sig, header, None), RegisterAgentActivity(sig, header), RegisterRemoveLink(sig, l)]
    case _ =>
      [StoreElement(sig, header, None), RegisterAgentActivity(sig, header)]
  }

  /**
   * Derivation agrees with the literal table for every variant, given the
   * entry exactly when the header declares one.
   */
  lemma OpsFromElementMatchesTable(hash: HeaderHash, sig: Signature, header: Header, entry: Entry)
    ensures var e := if header.Create? || header.Update? then Some(entry) else None;
      OpsFromElement(Element(SignedHeaderHashed(header, hash, sig), e)) == Ok(ExpectedOps(sig, header, entry))
  {
    var common := [StoreElement(sig, header, if header.Create? || header.Update? then Some(entry) else None),
                   RegisterAgentActivity(sig, header)];
    match header
    case Create(c) =>
      assert common + [StoreEntry(sig, NewCreate(c), entry)] == ExpectedOps(sig, header, entry);
    case Update(u) =>
      assert common + [StoreEntry(sig, NewUpdate(u), entry), RegisterReplacedBy(sig, u, Some(entry))]
        == ExpectedOps(sig, header, entry);
    case Delete(d) =>
      assert common + [RegisterDeletedBy(sig, d)] == ExpectedOps(sig, header, entry);
    case CreateLink(l) =>
      assert common + [RegisterAddLink(sig, l)] == ExpectedOps(sig, header, entry);
    case DeleteLink(l) =>
      assert common + [RegisterRemoveLink(sig, l)] == ExpectedOps(sig, header, entry);
    case Dna(_) =>
    case AgentValidationPkg(_) =>
    case InitZomesComplete(_) =>
    case OpenChain(_) =>
    case CloseChain(_) =>
  }

  /** No variant yields an empty list, and every list starts the same way. */
  lemma OpsStartWithElementAndActivity(element: Element)
    requires OpsFromElement(element).Ok?
    ensures var ops := OpsFromElement(element).value;
      |ops| >= 2 &&
      OpType(ops[0]) == StoreElementType && OpType(ops[1]) == RegisterAgentActivityType
  {
  }

  /** The op types each header variant yields, in order. */
  function OpTypesFor(t: HeaderType): seq<DhtOpType> {
    var common := [StoreElementType, RegisterAgentActivityType];
    match t
    case CreateType => common + [StoreEntryType]
    case UpdateType => common + [StoreEntryType, RegisterReplacedByType]
    case DeleteType => common + [RegisterDeletedByType]
    case CreateLinkType => common + [RegisterAddLinkType]
    case DeleteLinkType => common + [RegisterRemoveLinkType]
    case _ => common
  }

  function OpTypes(ops: seq<DhtOp>): (r: seq<DhtOpType>)
    ensures |r| == |ops| && forall i :: 0 <= i < |ops| ==> r[i] == OpType(ops[i])
  {
    if ops == [] then [] else [OpType(ops[0])] + OpTypes(ops[1..])
  }

  /** The derived op types depend only on the header variant, and no type repeats. */
  lemma OpTypesFollowHeaderType(element: Element)
    requires OpsFromElement(element).Ok?
    ensures OpTypes(OpsFromElement(element).value) == OpTypesFor(HeaderTypeOf(element.signedHeader.header))
    ensures var ts := OpTypes(OpsFromElement(element).value);
      forall i, j :: 0 <= i < j < |ts| ==> ts[i] != ts[j]
  {
    var ops := OpsFromElement(element).value;
    var ts := OpTypes(ops);
    var expected := OpTypesFor(HeaderTypeOf(element.signedHeader.header));
    assert |ts| == |expected|;
    forall i | 0 <= i < |ts|
      ensures ts[i] == expected[i]
    {
    }
    assert ts == expected;
    OpTypesForDistinct(HeaderTypeOf(element.signedHeader.header));
  }

  lemma OpTypesForDistinct(t: HeaderType)
    ensures var ts := OpTypesFor(t); forall i, j :: 0 <= i < j < |ts| ==> ts[i] != ts[j]
  {
  }

  datatype BasisError = NotFound(address: HeaderHash)

  /**
   * `dht_basis`: the address an op is routed to.  `headerHash` is the content
   * hash of a header; `store` stands for the lookup of a header by its hash.
   * A `RegisterReplacedBy` whose update basis is the entry routes to the
   * entry of the original header, which must be found in `store`.
   */
  function DhtBasis(op: DhtOp, headerHash: Header -> HeaderHash, store: map<HeaderHash, Header>): (r: Result<AnyDhtHash, BasisError>)
    ensures r.Err? <==>
      (op.RegisterReplacedBy? && op.update.updateBasis.BasisEntry? &&
       (op.update.originalHeaderAddress !in store || EntryData(store[op.update.originalHeaderAddress]).None?))
    ensures op.StoreElement? ==> r == Ok(HeaderAddress(headerHash(op.header)))
    ensures op.StoreEntry? ==> r == Ok(EntryAddress(EntryData(OpHeader(op)).value.0))
    ensures op.RegisterAgentActivity? ==> r == Ok(AgentAddress(Author(op.header)))
    ensures op.RegisterReplacedBy? && op.update.updateBasis.BasisHeader? ==>
      r == Ok(HeaderAddress(op.update.originalHeaderAddress))
    ensures op.RegisterReplacedBy? && op.update.updateBasis.BasisEntry? && r.Ok? ==>
      r.value == EntryAddress(EntryData(store[op.update.originalHeaderAddress]).value.0)
    ensures op.RegisterDeletedBy? ==> r == Ok(HeaderAddress(op.delete.deletesAddress))
    ensures op.RegisterAddLink? ==> r == Ok(EntryAddress(op.createLink.baseAddress))
    ensures op.RegisterRemoveLink? ==> r == Ok(EntryAddress(op.deleteLink.baseAddress))
  {
    match op
    case StoreElement(_, h, _) => Ok(HeaderAddress(headerHash(h)))
    case StoreEntry(_, NewCreate(c), _) => Ok(EntryAddress(c.entryHash))
    case StoreEntry(_, NewUpdate(u), _) => Ok(EntryAddress(u.entryHash))
    case RegisterAgentActivity(_, h) => Ok(AgentAddress(Author(h)))
    case RegisterReplacedBy(_, u, _) =>
      if u.updateBasis.BasisHeader? then Ok(HeaderAddress(u.originalHeaderAddress))
      else if u.originalHeaderAddress in store && EntryData(store[u.originalHeaderAddress]).Some? then
        Ok(EntryAddress(EntryData(store[u.originalHeaderAddress]).value.0))
      else
        Err(NotFound(u.originalHeaderAddress))
    case RegisterDeletedBy(_, d) => Ok(HeaderAddress(d.deletesAddress))
    case RegisterAddLink(_, l) => Ok(EntryAddress(l.baseAddress))
    case RegisterRemoveLink(_, l) => Ok(EntryAddress(l.baseAddress))
  }

  /**
   * An update routed by entry lands on the entry hash of the header it
   * replaces, as found in the store.
   */
  lemma ReplacedByRoutesToOriginalEntry(
    op: DhtOp, headerHash: Header -> HeaderHash, store: map<HeaderHash, Header>, original: CreateHeader)
    requires op.RegisterReplacedBy? && op.update.updateBasis.BasisEntry?
    requires op.update.originalHeaderAddress in store
    requires store[op.update.originalHeaderAddress] == Create(original)
    ensures DhtBasis(op, headerHash, store) == Ok(EntryAddress(original.entryHash))
  {
  }

  /**
   * Replace, delete and link ops route to the entity they refer to: their
   * basis does not depend on the hash of the op's own header at all.
   */
  lemma ReferringOpsIgnoreOwnHash(
    op: DhtOp, f: Header -> HeaderHash, g: Header -> HeaderHash, store: map<HeaderHash, Header>)
    requires op.RegisterReplacedBy? || op.RegisterDeletedBy? || op.RegisterAddLink? || op.RegisterRemoveLink?
    ensures DhtBasis(op, f, store) == DhtBasis(op, g, store)
  {
  }

  /**
   * For a `Create` element, the stored element routes to the header's own
   * hash, the stored entry to the declared entry hash, and the activity to the author.
   */
  lemma CreateOpsBases(element: Element, headerHash: Header -> HeaderHash, store: map<HeaderHash, Header>)
    requires element.signedHeader.header.Create? && element.entry.Some?
    ensures var ops := OpsFromElement(element).value;
      var h := element.signedHeader.header;
      |ops| == 3 &&
      DhtBasis(ops[0], headerHash, store) == Ok(HeaderAddress(headerHash(h))) &&
      DhtBasis(ops[1], headerHash, store) == Ok(AgentAddress(Author(h))) &&
      DhtBasis(ops[2], headerHash, store) == Ok(EntryAddress(h.create.entryHash))
  {
  }
}
