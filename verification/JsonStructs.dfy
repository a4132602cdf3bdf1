/** Blocks, events and judgments as JSON objects, and back, in src/json_buffer.c. */
module JsonStructs {
  import opened Common
  import opened Decimal
  import opened Json
  import Ntlv
  import Hash

  datatype BlockId = BlockId(hash: Hash.Hash, length: Uint64, dataType: Uuid)

  datatype Block = Block(id: BlockId, parentId: Option<BlockId>, parent: Option<Block>, metadata: Option<seq<Ntlv.Item>>)

  datatype EventId = EventId(nugget: Uuid, seconds: Uint64, nanos: Uint64)

  datatype Event = Event(
    id: EventId, parentId: Option<EventId>, parent: Option<Event>,
    metadata: Option<seq<Ntlv.Item>>, block: Option<Block>)

  /** The rule that fired and the flags it sets and clears. */
  datatype Rule = Rule(
    gid: Uint32, sid: Uint32, setSf: Uint32, setEnt: Uint32, unsetSf: Uint32, unsetEnt: Uint32)

  /** Who judged what, when, and how gravely. */
  datatype Header = Header(
    nugget: Uuid, seconds: Uint64, nanos: Uint64, eventId: EventId, blockId: BlockId, priority: Uint8)

  datatype Judgment = Judgment(
    header: Header, metadata: Option<seq<Ntlv.Item>>, rule: Rule, message: Option<string>)

  // ---- hashes ----

  function TypeName(kind: nat): Option<string> {
    match kind
    case 1 => Some("MD5")
    case 2 => Some("SHA1")
    case 3 => Some("SHA224")
    case 4 => Some("SHA256")
    case 5 => Some("SHA512")
    case _ => None
  }

  function TypeOf(name: string): nat {
    if name == "MD5" then 1
    else if name == "SHA1" then 2
    else if name == "SHA224" then 3
    else if name == "SHA256" then 4
    else if name == "SHA512" then 5
    else 0
  }

  function PutHash(h: Hash.Hash): Option<Json> {
    var name :- TypeName(h.kind);
    if !h.final then None else Some(Obj(map[Type := Str(name), Value := Str(Hash.Hex(h.data))]))
  }

  function GetHash(f: Fields, k: Key): Option<Hash.Hash> {
    var o :- GetObj(f, k);
    var name :- GetString(o, Type);
    var text :- GetString(o, Value);
    var kind := TypeOf(name);
    if Hash.Accepts(kind, text) then Some(Hash.Hash(kind, Hash.Unhex(text), true)) else None
  }

  lemma TypeNames(kind: nat)
    requires TypeName(kind).Some?
    ensures TypeOf(TypeName(kind).value) == kind
  {}

  predicate GoodHash(h: Hash.Hash) {
    h.final && TypeName(h.kind).Some? && |h.data| == Hash.DigestLength(h.kind)
  }

  lemma GetsHash(f: Fields, k: Key, name: string, text: string)
    requires k in f && f[k] == Obj(map[Type := Str(name), Value := Str(text)])
    ensures GetHash(f, k) ==
            if Hash.Accepts(TypeOf(name), text) then Some(Hash.Hash(TypeOf(name), Hash.Unhex(text), true)) else None
  {}

  lemma ReadsHash(h: Hash.Hash, f: Fields, k: Key)
    requires k in f && PutHash(h) == Some(f[k])
    ensures GetHash(f, k) ==
            if Hash.Accepts(h.kind, Hash.Hex(h.data)) then Some(Hash.Hash(h.kind, Hash.Unhex(Hash.Hex(h.data)), true))
            else None
  {
    TypeNames(h.kind);
    GetsHash(f, k, TypeName(h.kind).value, Hash.Hex(h.data));
  }

  /** A hash that was put reads back the same exactly when it has its type's digest length. */
  lemma HashRoundTrip(h: Hash.Hash, f: Fields, k: Key)
    requires k in f && PutHash(h) == Some(f[k])
    ensures GetHash(f, k) == Some(h) <==> GoodHash(h)
  {
    ReadsHash(h, f, k);
    Hash.HexUnhex(h.data);
  }

  // ---- block ids and event ids ----

  function PutBlockId(lib: Library, b: BlockId): Option<Json> {
    var h :- PutHash(b.hash);
    Some(Obj(PutUuid(lib, map[HashField := h, Size := Int(b.length)], DataType, b.dataType)))
  }

  function GetBlockId(lib: Library, f: Fields, k: Key): Option<BlockId> {
    var o :- GetObj(f, k);
    var h :- GetHash(o, HashField);
    var n :- GetWide(lib, o, Size, UINT64_MAX);
    var t :- GetUuid(lib, o, DataType);
    Some(BlockId(h, n, t))
  }

  lemma BlockIdRoundTrip(lib: Library, b: BlockId, f: Fields, k: Key)
    requires Lawful(lib) && k in f && PutBlockId(lib, b) == Some(f[k])
    ensures GetBlockId(lib, f, k) == Some(b) <==> GoodHash(b.hash)
  {
    var o := f[k].fields;
    HashRoundTrip(b.hash, o, HashField);
    WideRoundTrip(lib, o, Size, b.length, UINT64_MAX);
    UuidRoundTrip(lib, o, DataType, b.dataType);
  }

  function PutEventId(lib: Library, e: EventId): Json {
    Obj(map[Nugget := Obj(PutUuid(lib, map[], Id, e.nugget)), Seconds := Int(e.seconds), NanoSeconds := Int(e.nanos)])
  }

  function GetEventId(lib: Library, f: Fields, k: Key): Option<EventId> {
    var o :- GetObj(f, k);
    var n :- GetObj(o, Nugget);
    var u :- GetUuid(lib, n, Id);
    var s :- GetWide(lib, o, Seconds, UINT64_MAX);
    var ns :- GetWide(lib, o, NanoSeconds, UINT64_MAX);
    Some(EventId(u, s, ns))
  }

  /** Which field holds which member of a hash, a block id and an event id. */
  lemma IdFields(lib: Library, h: Hash.Hash, b: BlockId, e: EventId)
    ensures PutHash(h).Some? ==>
              PutHash(h) == Some(Obj(map[Type := Str(TypeName(h.kind).value), Value := Str(Hash.Hex(h.data))]))
    ensures PutBlockId(lib, b).Some? ==>
              && PutBlockId(lib, b).value.Obj?
              && var f := PutBlockId(lib, b).value.fields;
              && f.Keys == {HashField, Size, DataType}
              && PutHash(b.hash) == Some(f[HashField]) && f[Size] == Int(b.length)
              && f[DataType] == Obj(map[UuidId := Str(lib.uuidText(b.dataType))])
    ensures var f := PutEventId(lib, e).fields;
            && PutEventId(lib, e).Obj? && f.Keys == {Nugget, Seconds, NanoSeconds}
            && f[Nugget] == Obj(map[Id := Obj(map[UuidId := Str(lib.uuidText(e.nugget))])])
            && f[Seconds] == Int(e.seconds) && f[NanoSeconds] == Int(e.nanos)
  {}

  lemma EventIdRoundTrip(lib: Library, e: EventId, f: Fields, k: Key)
    requires Lawful(lib) && k in f && f[k] == PutEventId(lib, e)
    ensures GetEventId(lib, f, k) == Some(e)
  {
    var o := f[k].fields;
    UuidRoundTrip(lib, o[Nugget].fields, Id, e.nugget);
    WideRoundTrip(lib, o, Seconds, e.seconds, UINT64_MAX);
    WideRoundTrip(lib, o, NanoSeconds, e.nanos, UINT64_MAX);
  }

  // ---- optional parts ----

  /** Adds a field when there is something to add. */
  function With(f: Fields, k: Key, j: Option<Json>): Fields {
    if j.Some? then f[k := j.value] else f
  }

  /** Puts an optional metadata list; the outer option is failure. */
  function PutMetadata(lib: Library, f: Fields, list: Option<seq<Ntlv.Item>>): Option<Fields> {
    if list.None? then Some(f) else Ntlv.PutList(lib, f, Metadata, list.value)
  }

  /** Reads it; here too the outer option is failure. */
  function GetMetadata(lib: Library, f: Fields): Option<Option<seq<Ntlv.Item>>> {
    if Get(f, Metadata).None? then Some(None) else (var l :- Ntlv.GetList(lib, f, Metadata); Some(Some(l)))
  }

  ghost predicate GoodList(lib: Library, list: Option<seq<Ntlv.Item>>) {
    list.Some? ==> forall i :: 0 <= i < |list.value| ==> Ntlv.Faithful(lib, list.value[i])
  }

  /** An optional metadata list as it is put. */
  ghost predicate StoresMetadata(lib: Library, f: Fields, list: Option<seq<Ntlv.Item>>) {
    if list.None? then Metadata !in f
    else Metadata in f && f[Metadata].Arr? && Ntlv.PutItems(lib, list.value) == Some(f[Metadata].items)
  }

  /** Two objects have the same fields but for one key. */
  ghost predicate SameBut(f: Fields, g: Fields, but: Key) {
    forall k :: k != but ==> (k in f <==> k in g) && (k in g ==> f[k] == g[k])
  }

  lemma MetadataStored(lib: Library, g: Fields, list: Option<seq<Ntlv.Item>>)
    requires Metadata !in g && PutMetadata(lib, g, list).Some?
    ensures var f := PutMetadata(lib, g, list).value; StoresMetadata(lib, f, list) && SameBut(f, g, Metadata)
  {}

  lemma MetadataPuts(lib: Library, g: Fields, list: Option<seq<Ntlv.Item>>)
    requires Lawful(lib) && DistinctTypes(lib.types) && GoodList(lib, list)
    ensures PutMetadata(lib, g, list).Some?
  {
    if list.Some? {
      Ntlv.ListRoundTrip(lib, list.value);
      assert forall i :: 0 <= i < |list.value| ==> Ntlv.Faithful(lib, list.value[i]) ==> Ntlv.Puttable(lib, list.value[i]);
    }
  }

  /** A list that was put reads back exactly when every item is faithful. */
  lemma MetadataRoundTrip(lib: Library, f: Fields, list: Option<seq<Ntlv.Item>>)
    requires Lawful(lib) && DistinctTypes(lib.types) && StoresMetadata(lib, f, list)
    ensures GetMetadata(lib, f) == Some(list) <==> GoodList(lib, list)
    ensures GetMetadata(lib, f).Some? ==> (GetMetadata(lib, f).value.None? <==> list.None?)
  {
    if list.Some? { Ntlv.ListRoundTrip(lib, list.value); }
  }

  // ---- blocks ----

  function PutOptionalBlockId(lib: Library, b: Option<BlockId>): Option<Option<Json>> {
    if b.None? then Some(None) else (var j :- PutBlockId(lib, b.value); Some(Some(j)))
  }

  function GetOptionalBlockId(lib: Library, f: Fields, k: Key): Option<Option<BlockId>> {
    if Get(f, k).None? then Some(None) else (var b :- GetBlockId(lib, f, k); Some(Some(b)))
  }

  /** The fields of a block before its metadata is added. */
  function BlockFields(id: Json, parentId: Option<Json>, parent: Option<Json>): Fields {
    With(With(map[Id := id], ParentId, parentId), Parent, parent)
  }

  function PutBlock(lib: Library, b: Block): Option<Json> {
    var id :- PutBlockId(lib, b.id);
    var parentId :- PutOptionalBlockId(lib, b.parentId);
    var parent :- if b.parent.None? then Some(None) else (var j :- PutBlock(lib, b.parent.value); Some(Some(j)));
    var f :- PutMetadata(lib, BlockFields(id, parentId, parent), b.metadata);
    Some(Obj(f))
  }

  /** Reads the block in an object; a missing metadata list stays missing. */
  function GetBlock(lib: Library, j: Json): Option<Block> {
    if !j.Obj? then None
    else
      var f := j.fields;
      var id :- GetBlockId(lib, f, Id);
      var parentId :- GetOptionalBlockId(lib, f, ParentId);
      var parent :- if Get(f, Parent).None? then Some(None)
                    else (var p :- GetBlock(lib, f[Parent]); Some(Some(p)));
      var metadata :- GetMetadata(lib, f);
      Some(Block(id, parentId, parent, metadata))
  }

  /** Every hash has its type's digest length and every metadata item is faithful, at every depth. */
  ghost predicate GoodBlock(lib: Library, b: Block) {
    && GoodHash(b.id.hash)
    && (b.parentId.Some? ==> GoodHash(b.parentId.value.hash))
    && (b.parent.Some? ==> GoodBlock(lib, b.parent.value))
    && GoodList(lib, b.metadata)
  }

  lemma PutBlockIdSome(lib: Library, b: BlockId)
    ensures GoodHash(b.hash) ==> PutBlockId(lib, b).Some?
    ensures PutBlockId(lib, b).Some? ==> PutBlockId(lib, b).value.Obj?
  {}

  /** The fields of a block, in terms of what the readers of its parts find there. */
  ghost predicate HoldsBlock(lib: Library, f: Fields, b: Block) {
    && GetBlockId(lib, f, Id) == Some(b.id)
    && GetOptionalBlockId(lib, f, ParentId) == Some(b.parentId)
    && (b.parent.Some? ==> Parent in f && GetBlock(lib, f[Parent]) == b.parent)
    && GetMetadata(lib, f) == Some(b.metadata)
  }

  /** The object a block is put as, field by field: all but the metadata, then the metadata. */
  ghost predicate StoresBlockIds(lib: Library, f: Fields, b: Block) {
    && Id in f && PutBlockId(lib, b.id) == Some(f[Id])
    && (if b.parentId.None? then ParentId !in f
        else ParentId in f && PutBlockId(lib, b.parentId.value) == Some(f[ParentId]))
    && (if b.parent.None? then Parent !in f else Parent in f && PutBlock(lib, b.parent.value) == Some(f[Parent]))
  }

  ghost predicate StoresBlock(lib: Library, f: Fields, b: Block) {
    StoresBlockIds(lib, f, b) && StoresMetadata(lib, f, b.metadata)
  }

  lemma PutsBlockIds(lib: Library, b: Block, id: Json, parentId: Option<Json>, parent: Option<Json>)
    requires PutBlockId(lib, b.id) == Some(id) && PutOptionalBlockId(lib, b.parentId) == Some(parentId)
    requires if b.parent.None? then parent == None else parent.Some? && parent == PutBlock(lib, b.parent.value)
    ensures StoresBlockIds(lib, BlockFields(id, parentId, parent), b) && Metadata !in BlockFields(id, parentId, parent)
  {}

  lemma BlockIdsKept(lib: Library, f: Fields, g: Fields, b: Block)
    requires StoresBlockIds(lib, g, b) && SameBut(f, g, Metadata)
    ensures StoresBlockIds(lib, f, b)
  {}

  lemma PutsBlock(lib: Library, b: Block)
    requires PutBlock(lib, b).Some?
    ensures PutBlock(lib, b).value.Obj? && StoresBlock(lib, PutBlock(lib, b).value.fields, b)
  {
    var id, parentId := PutBlockId(lib, b.id).value, PutOptionalBlockId(lib, b.parentId).value;
    var parent := if b.parent.None? then None else PutBlock(lib, b.parent.value);
    var g := BlockFields(id, parentId, parent);
    PutsBlockIds(lib, b, id, parentId, parent);
    MetadataStored(lib, g, b.metadata);
    BlockIdsKept(lib, PutMetadata(lib, g, b.metadata).value, g, b);
  }

  lemma BlockPuts(lib: Library, b: Block)
    requires Lawful(lib) && DistinctTypes(lib.types) && GoodBlock(lib, b)
    requires b.parent.Some? ==> PutBlock(lib, b.parent.value).Some?
    ensures PutBlock(lib, b).Some?
  {
    PutBlockIdSome(lib, b.id);
    if b.parentId.Some? { PutBlockIdSome(lib, b.parentId.value); }
    var id, parentId := PutBlockId(lib, b.id).value, PutOptionalBlockId(lib, b.parentId).value;
    var parent := if b.parent.None? then None else PutBlock(lib, b.parent.value);
    MetadataPuts(lib, BlockFields(id, parentId, parent), b.metadata);
  }

  lemma ReadsBlock(lib: Library, f: Fields, b: Block)
    requires StoresBlock(lib, f, b) && (b.parent.Some? ==> f[Parent].Obj?)
    ensures GetBlock(lib, Obj(f)) == Some(b) <==> HoldsBlock(lib, f, b)
  {}

  lemma StoredIsHeld(lib: Library, f: Fields, b: Block)
    requires Lawful(lib) && DistinctTypes(lib.types) && StoresBlock(lib, f, b)
    ensures HoldsBlock(lib, f, b) <==>
            && GoodHash(b.id.hash) && (b.parentId.Some? ==> GoodHash(b.parentId.value.hash))
            && (b.parent.Some? ==> GetBlock(lib, f[Parent]) == b.parent)
            && GoodList(lib, b.metadata)
  {
    BlockIdRoundTrip(lib, b.id, f, Id);
    if b.parentId.Some? {
      PutBlockIdSome(lib, b.parentId.value);
      BlockIdRoundTrip(lib, b.parentId.value, f, ParentId);
    }
    MetadataRoundTrip(lib, f, b.metadata);
  }

  /** A block, however deep its parents, can be put and reads back the same exactly when it is good. */
  lemma {:induction false} BlockRoundTrip(lib: Library, b: Block)
    requires Lawful(lib) && DistinctTypes(lib.types)
    ensures PutBlock(lib, b).Some? && GetBlock(lib, PutBlock(lib, b).value) == Some(b) <==> GoodBlock(lib, b)
  {
    if b.parent.Some? { BlockRoundTrip(lib, b.parent.value); }
    if PutBlock(lib, b).Some? {
      if b.parent.Some? { PutsBlock(lib, b.parent.value); }
      PutsBlock(lib, b);
      ReadsBlock(lib, PutBlock(lib, b).value.fields, b);
      StoredIsHeld(lib, PutBlock(lib, b).value.fields, b);
    } else if GoodBlock(lib, b) {
      BlockPuts(lib, b);
    }
  }

  // ---- events ----

  function PutEvent(lib: Library, e: Event): Option<Json> {
    var parent :- if e.parent.None? then Some(None) else (var j :- PutEvent(lib, e.parent.value); Some(Some(j)));
    var f :- PutMetadata(lib, EventFields(lib, e, parent), e.metadata);
    var block :- if e.block.None? then Some(None) else (var j :- PutBlock(lib, e.block.value); Some(Some(j)));
    Some(Obj(With(f, BlockField, block)))
  }

  function GetOptionalEventId(lib: Library, f: Fields, k: Key): Option<Option<EventId>> {
    if Get(f, k).None? then Some(None) else (var e :- GetEventId(lib, f, k); Some(Some(e)))
  }

  function GetOptionalBlock(lib: Library, f: Fields, k: Key): Option<Option<Block>> {
    if Get(f, k).None? then Some(None) else (var b :- GetBlock(lib, f[k]); Some(Some(b)))
  }

  /** An event of parts that were all read; a missing metadata list becomes an empty one. */
  function Assembled(id: Option<EventId>, parentId: Option<Option<EventId>>, parent: Option<Option<Event>>,
                     metadata: Option<Option<seq<Ntlv.Item>>>, block: Option<Option<Block>>): Option<Event> {
    if id.None? || parentId.None? || parent.None? || metadata.None? || block.None? then None
    else
      var list := if metadata.value.None? then [] else metadata.value.value;
      Some(Event(id.value, parentId.value, parent.value, Some(list), block.value))
  }

  /** Reads the event in an object. */
  function GetEvent(lib: Library, j: Json): Option<Event> {
    if !j.Obj? then None
    else
      var f := j.fields;
      var parent := if Get(f, Parent).None? then Some(None) else (var p :- GetEvent(lib, f[Parent]); Some(Some(p)));
      Assembled(GetEventId(lib, f, Id), GetOptionalEventId(lib, f, ParentId), parent,
                GetMetadata(lib, f), GetOptionalBlock(lib, f, BlockField))
  }

  ghost predicate GoodEvent(lib: Library, e: Event) {
    && (e.parent.Some? ==> GoodEvent(lib, e.parent.value))
    && GoodList(lib, e.metadata)
    && (e.block.Some? ==> GoodBlock(lib, e.block.value))
  }

  /** The event with absent metadata lists made empty, at every depth. */
  function Normal(e: Event): Event {
    e.(metadata := if e.metadata.None? then Some([]) else e.metadata,
       parent := if e.parent.None? then None else Some(Normal(e.parent.value)))
  }

  /** The object an event is put as, field by field: all but the block, then the block. */
  ghost predicate StoresIds(lib: Library, f: Fields, e: Event) {
    && Id in f && f[Id] == PutEventId(lib, e.id)
    && (if e.parentId.None? then ParentId !in f
        else ParentId in f && f[ParentId] == PutEventId(lib, e.parentId.value))
    && (if e.parent.None? then Parent !in f else Parent in f && PutEvent(lib, e.parent.value) == Some(f[Parent]))
  }

  ghost predicate StoresHead(lib: Library, f: Fields, e: Event) {
    StoresIds(lib, f, e) && StoresMetadata(lib, f, e.metadata)
  }

  ghost predicate StoresEvent(lib: Library, f: Fields, e: Event) {
    && StoresHead(lib, f, e)
    && (if e.block.None? then BlockField !in f
        else BlockField in f && PutBlock(lib, e.block.value) == Some(f[BlockField]))
  }

  /** The fields of an event before its metadata and block are added. */
  function EventFields(lib: Library, e: Event, parent: Option<Json>): Fields {
    With(With(map[Id := PutEventId(lib, e.id)], ParentId,
              if e.parentId.None? then None else Some(PutEventId(lib, e.parentId.value))),
         Parent, parent)
  }

  lemma PutsIds(lib: Library, e: Event, parent: Option<Json>)
    requires if e.parent.None? then parent == None else parent.Some? && parent == PutEvent(lib, e.parent.value)
    ensures StoresIds(lib, EventFields(lib, e, parent), e)
    ensures BlockField !in EventFields(lib, e, parent) && Metadata !in EventFields(lib, e, parent)
  {}

  lemma IdsKept(lib: Library, f: Fields, g: Fields, e: Event)
    requires StoresIds(lib, g, e) && SameBut(f, g, Metadata)
    ensures StoresIds(lib, f, e)
  {}

  lemma PutsHead(lib: Library, e: Event, parent: Option<Json>)
    requires if e.parent.None? then parent == None else parent.Some? && parent == PutEvent(lib, e.parent.value)
    requires PutMetadata(lib, EventFields(lib, e, parent), e.metadata).Some?
    ensures var f := PutMetadata(lib, EventFields(lib, e, parent), e.metadata).value;
            StoresHead(lib, f, e) && BlockField !in f
  {
    var g := EventFields(lib, e, parent);
    PutsIds(lib, e, parent);
    MetadataStored(lib, g, e.metadata);
    IdsKept(lib, PutMetadata(lib, g, e.metadata).value, g, e);
  }

  lemma HeadKept(lib: Library, f: Fields, e: Event, block: Option<Json>)
    requires StoresHead(lib, f, e)
    ensures StoresHead(lib, With(f, BlockField, block), e)
  {}

  lemma PutsEvent(lib: Library, e: Event)
    requires PutEvent(lib, e).Some?
    ensures PutEvent(lib, e).value.Obj? && StoresEvent(lib, PutEvent(lib, e).value.fields, e)
  {
    var parent := if e.parent.None? then None else PutEvent(lib, e.parent.value);
    var block := if e.block.None? then None else PutBlock(lib, e.block.value);
    PutsHead(lib, e, parent);
    var f := PutMetadata(lib, EventFields(lib, e, parent), e.metadata).value;
    HeadKept(lib, f, e, block);
    assert PutEvent(lib, e) == Some(Obj(With(f, BlockField, block)));
  }

  lemma EventPuts(lib: Library, e: Event)
    requires Lawful(lib) && DistinctTypes(lib.types) && GoodList(lib, e.metadata)
    requires e.parent.Some? ==> PutEvent(lib, e.parent.value).Some?
    requires e.block.Some? ==> PutBlock(lib, e.block.value).Some?
    ensures PutEvent(lib, e).Some?
  {
    var parent := if e.parent.None? then None else PutEvent(lib, e.parent.value);
    MetadataPuts(lib, EventFields(lib, e, parent), e.metadata);
  }

  /** The fields of an event, in terms of what the readers of its parts find there. */
  ghost predicate HoldsEvent(lib: Library, f: Fields, e: Event) {
    && GetEventId(lib, f, Id) == Some(e.id)
    && GetOptionalEventId(lib, f, ParentId) == Some(e.parentId)
    && (e.parent.Some? ==> Parent in f && GetEvent(lib, f[Parent]) == Some(Normal(e.parent.value)))
    && GetMetadata(lib, f) == Some(e.metadata)
    && GetOptionalBlock(lib, f, BlockField) == Some(e.block)
  }

  lemma ReadsEvent(lib: Library, f: Fields, e: Event)
    requires StoresEvent(lib, f, e)
    requires e.parent.Some? ==> f[Parent].Obj?
    requires GetMetadata(lib, f).Some? ==> (GetMetadata(lib, f).value.None? <==> e.metadata.None?)
    ensures GetEvent(lib, Obj(f)) == Some(Normal(e)) <==> HoldsEvent(lib, f, e)
  {}

  lemma StoredEventIsHeld(lib: Library, f: Fields, e: Event)
    requires Lawful(lib) && DistinctTypes(lib.types) && StoresEvent(lib, f, e) && (e.block.Some? ==> f[BlockField].Obj?)
    ensures HoldsEvent(lib, f, e) <==>
            && (e.parent.Some? ==> GetEvent(lib, f[Parent]) == Some(Normal(e.parent.value)))
            && GoodList(lib, e.metadata)
            && (e.block.Some? ==> GetBlock(lib, f[BlockField]) == e.block)
  {
    EventIdRoundTrip(lib, e.id, f, Id);
    if e.parentId.Some? { EventIdRoundTrip(lib, e.parentId.value, f, ParentId); }
    MetadataRoundTrip(lib, f, e.metadata);
  }

  /**
   * An event, however deep its parents, can be put and reads back the same, up to absent metadata
   * lists, exactly when it is good.
   */
  lemma {:induction false} EventRoundTrip(lib: Library, e: Event)
    requires Lawful(lib) && DistinctTypes(lib.types)
    ensures PutEvent(lib, e).Some? && GetEvent(lib, PutEvent(lib, e).value) == Some(Normal(e)) <==> GoodEvent(lib, e)
  {
    if e.parent.Some? { EventRoundTrip(lib, e.parent.value); }
    if e.block.Some? { BlockRoundTrip(lib, e.block.value); }
    if PutEvent(lib, e).Some? {
      if e.parent.Some? { PutsEvent(lib, e.parent.value); }
      if e.block.Some? { PutsBlock(lib, e.block.value); }
      PutsEvent(lib, e);
      MetadataRoundTrip(lib, PutEvent(lib, e).value.fields, e.metadata);
      ReadsEvent(lib, PutEvent(lib, e).value.fields, e);
      StoredEventIsHeld(lib, PutEvent(lib, e).value.fields, e);
    } else if GoodEvent(lib, e) {
      EventPuts(lib, e);
    }
  }

  // ---- judgments ----

  function PutRule(f: Fields, r: Rule): Fields {
    f + map[Gid := Int(r.gid), Sid := Int(r.sid), SetSfFlags := Int(r.setSf), SetEntFlags := Int(r.setEnt),
            UnsetSfFlags := Int(r.unsetSf), UnsetEntFlags := Int(r.unsetEnt)]
  }

  function GetRule(lib: Library, f: Fields): Option<Rule> {
    var gid :- GetWide(lib, f, Gid, UINT32_MAX);
    var sid :- GetWide(lib, f, Sid, UINT32_MAX);
    var setSf :- GetWide(lib, f, SetSfFlags, UINT32_MAX);
    var setEnt :- GetWide(lib, f, SetEntFlags, UINT32_MAX);
    var unsetSf :- GetWide(lib, f, UnsetSfFlags, UINT32_MAX);
    var unsetEnt :- GetWide(lib, f, UnsetEntFlags, UINT32_MAX);
    Some(Rule(gid, sid, setSf, setEnt, unsetSf, unsetEnt))
  }

  ghost predicate StoresRule(f: Fields, r: Rule) {
    && Gid in f && f[Gid] == Int(r.gid) && Sid in f && f[Sid] == Int(r.sid)
    && SetSfFlags in f && f[SetSfFlags] == Int(r.setSf) && SetEntFlags in f && f[SetEntFlags] == Int(r.setEnt)
    && UnsetSfFlags in f && f[UnsetSfFlags] == Int(r.unsetSf)
    && UnsetEntFlags in f && f[UnsetEntFlags] == Int(r.unsetEnt)
  }

  lemma RuleRoundTrip(lib: Library, f: Fields, r: Rule)
    requires Lawful(lib) && StoresRule(f, r)
    ensures GetRule(lib, f) == Some(r)
  {
    WideRoundTrip(lib, f, Gid, r.gid, UINT32_MAX);
    WideRoundTrip(lib, f, Sid, r.sid, UINT32_MAX);
    WideRoundTrip(lib, f, SetSfFlags, r.setSf, UINT32_MAX);
    WideRoundTrip(lib, f, SetEntFlags, r.setEnt, UINT32_MAX);
    WideRoundTrip(lib, f, UnsetSfFlags, r.unsetSf, UINT32_MAX);
    WideRoundTrip(lib, f, UnsetEntFlags, r.unsetEnt, UINT32_MAX);
  }

  function PutHeader(lib: Library, h: Header): Option<Fields> {
    var b :- PutBlockId(lib, h.blockId);
    Some(PutUuid(lib, map[Seconds := Int(h.seconds), NanoSeconds := Int(h.nanos),
                          EventIdField := PutEventId(lib, h.eventId), BlockIdField := b,
                          Priority := Int(h.priority)],
                 NuggetId, h.nugget))
  }

  function GetHeader(lib: Library, f: Fields): Option<Header> {
    var nugget :- GetUuid(lib, f, NuggetId);
    var seconds :- GetWide(lib, f, Seconds, UINT64_MAX);
    var nanos :- GetWide(lib, f, NanoSeconds, UINT64_MAX);
    var eventId :- GetEventId(lib, f, EventIdField);
    var blockId :- GetBlockId(lib, f, BlockIdField);
    var priority :- GetNarrow(lib, f, Priority, UINT8_MAX);
    Some(Header(nugget, seconds, nanos, eventId, blockId, priority))
  }

  ghost predicate StoresHeader(lib: Library, f: Fields, h: Header) {
    && NuggetId in f && f[NuggetId] == Obj(map[UuidId := Str(lib.uuidText(h.nugget))])
    && Seconds in f && f[Seconds] == Int(h.seconds) && NanoSeconds in f && f[NanoSeconds] == Int(h.nanos)
    && EventIdField in f && f[EventIdField] == PutEventId(lib, h.eventId)
    && BlockIdField in f && PutBlockId(lib, h.blockId) == Some(f[BlockIdField])
    && Priority in f && f[Priority] == Int(h.priority)
  }

  lemma HeaderRoundTrip(lib: Library, f: Fields, h: Header)
    requires Lawful(lib) && StoresHeader(lib, f, h)
    ensures GetHeader(lib, f) == Some(h) <==> GoodHash(h.blockId.hash)
  {
    UuidRoundTrip(lib, f, NuggetId, h.nugget);
    WideRoundTrip(lib, f, Seconds, h.seconds, UINT64_MAX);
    WideRoundTrip(lib, f, NanoSeconds, h.nanos, UINT64_MAX);
    EventIdRoundTrip(lib, h.eventId, f, EventIdField);
    BlockIdRoundTrip(lib, h.blockId, f, BlockIdField);
    NarrowRoundTrip(lib, f, Priority, h.priority, UINT8_MAX);
  }

  function PutMessage(f: Fields, message: Option<string>): Fields {
    if message.None? then f else f[Message := Str(message.value)]
  }

  function GetMessage(f: Fields): Option<Option<string>> {
    if Get(f, Message).None? then Some(None) else (var s :- GetString(f, Message); Some(Some(s)))
  }

  function PutJudgment(lib: Library, x: Judgment): Option<Json> {
    var header :- PutHeader(lib, x.header);
    var list :- x.metadata;
    var f :- Ntlv.PutList(lib, PutRule(header, x.rule), Metadata, list);
    Some(Obj(PutMessage(f, x.message)))
  }

  function GetJudgment(lib: Library, j: Json): Option<Judgment> {
    if !j.Obj? then None
    else
      var header :- GetHeader(lib, j.fields);
      var list :- Ntlv.GetList(lib, j.fields, Metadata);
      var rule :- GetRule(lib, j.fields);
      var message :- GetMessage(j.fields);
      Some(Judgment(header, Some(list), rule, message))
  }

  ghost predicate GoodJudgment(lib: Library, x: Judgment) {
    GoodHash(x.header.blockId.hash) && x.metadata.Some? && GoodList(lib, x.metadata)
  }

  lemma HeaderStored(lib: Library, h: Header)
    requires PutHeader(lib, h).Some?
    ensures StoresHeader(lib, PutHeader(lib, h).value, h) && Message !in PutHeader(lib, h).value
  {}

  /** An object has the fields of another, but perhaps for those of some keys. */
  ghost predicate Keeps(f: Fields, g: Fields, but: set<Key>) {
    forall o :: o in g && o !in but ==> o in f && f[o] == g[o]
  }

  lemma HeaderKept(lib: Library, f: Fields, g: Fields, h: Header, but: set<Key>)
    requires StoresHeader(lib, g, h) && Keeps(f, g, but)
    requires NuggetId !in but && Seconds !in but && NanoSeconds !in but && EventIdField !in but && BlockIdField !in but
    requires Priority !in but
    ensures StoresHeader(lib, f, h)
  {}

  lemma RuleStored(g: Fields, r: Rule)
    ensures StoresRule(PutRule(g, r), r)
    ensures Keeps(PutRule(g, r), g, RULE_KEYS)
    ensures Message in PutRule(g, r) ==> Message in g
  {}

  lemma RuleKept(f: Fields, g: Fields, r: Rule, but: set<Key>)
    requires StoresRule(g, r) && Keeps(f, g, but)
    requires but !! RULE_KEYS
    ensures StoresRule(f, r)
  {}

  lemma MessageRoundTrip(f: Fields, message: Option<string>)
    requires Message !in f
    ensures GetMessage(PutMessage(f, message)) == Some(message)
    ensures Keeps(PutMessage(f, message), f, {Message})
  {}

  const RULE_KEYS: set<Key> := {Gid, Sid, SetSfFlags, SetEntFlags, UnsetSfFlags, UnsetEntFlags}

  /** The header survives the fields that are added after it, */
  lemma HeaderSurvives(lib: Library, x: Header, h: Fields, g: Fields, m: Fields, f: Fields)
    requires StoresHeader(lib, h, x) && Keeps(g, h, RULE_KEYS) && Keeps(m, g, {Metadata}) && Keeps(f, m, {Message})
    ensures StoresHeader(lib, f, x)
  {
    HeaderKept(lib, g, h, x, RULE_KEYS);
    HeaderKept(lib, m, g, x, {Metadata});
    HeaderKept(lib, f, m, x, {Message});
  }

  /** and so does the rule. */
  lemma RuleSurvives(r: Rule, g: Fields, m: Fields, f: Fields)
    requires StoresRule(g, r) && Keeps(m, g, {Metadata}) && Keeps(f, m, {Message})
    ensures StoresRule(f, r)
  {
    RuleKept(m, g, r, {Metadata});
    RuleKept(f, m, r, {Message});
  }

  ghost predicate StoresJudgment(lib: Library, f: Fields, x: Judgment) {
    && StoresHeader(lib, f, x.header) && StoresRule(f, x.rule)
    && x.metadata.Some? && StoresMetadata(lib, f, x.metadata) && GetMessage(f) == Some(x.message)
  }

  lemma ListStored(lib: Library, g: Fields, list: seq<Ntlv.Item>)
    requires Ntlv.PutList(lib, g, Metadata, list).Some?
    ensures var m := Ntlv.PutList(lib, g, Metadata, list).value;
            Keeps(m, g, {Metadata}) && StoresMetadata(lib, m, Some(list)) && (Message in m ==> Message in g)
  {}

  lemma PutsJudgment(lib: Library, x: Judgment)
    requires PutJudgment(lib, x).Some?
    ensures PutJudgment(lib, x).value.Obj? && StoresJudgment(lib, PutJudgment(lib, x).value.fields, x)
  {
    var h := PutHeader(lib, x.header).value;
    HeaderStored(lib, x.header);
    var g := PutRule(h, x.rule);
    RuleStored(h, x.rule);
    ListStored(lib, g, x.metadata.value);
    var m := Ntlv.PutList(lib, g, Metadata, x.metadata.value).value;
    MessageRoundTrip(m, x.message);
    HeaderSurvives(lib, x.header, h, g, m, PutMessage(m, x.message));
    RuleSurvives(x.rule, g, m, PutMessage(m, x.message));
  }

  lemma JudgmentPuts(lib: Library, x: Judgment)
    requires Lawful(lib) && DistinctTypes(lib.types) && GoodJudgment(lib, x)
    ensures PutJudgment(lib, x).Some?
  {
    PutBlockIdSome(lib, x.header.blockId);
    MetadataPuts(lib, PutRule(PutHeader(lib, x.header).value, x.rule), x.metadata);
  }

  lemma ReadsJudgment(lib: Library, f: Fields, x: Judgment)
    requires Lawful(lib) && DistinctTypes(lib.types) && StoresJudgment(lib, f, x)
    ensures GetJudgment(lib, Obj(f)) == Some(x) <==> GoodJudgment(lib, x)
  {
    HeaderRoundTrip(lib, f, x.header);
    MetadataRoundTrip(lib, f, x.metadata);
    RuleRoundTrip(lib, f, x.rule);
  }

  /** A judgment can be put and reads back the same exactly when it is good. */
  lemma JudgmentRoundTrip(lib: Library, x: Judgment)
    requires Lawful(lib) && DistinctTypes(lib.types)
    ensures PutJudgment(lib, x).Some? && GetJudgment(lib, PutJudgment(lib, x).value) == Some(x) <==> GoodJudgment(lib, x)
  {
    if PutJudgment(lib, x).Some? {
      PutsJudgment(lib, x);
      ReadsJudgment(lib, PutJudgment(lib, x).value.fields, x);
    } else if GoodJudgment(lib, x) {
      JudgmentPuts(lib, x);
    }
  }
}
