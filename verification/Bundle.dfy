/**
 The Envelope's CSV bundle at row level: the document, frontmatter, block, value and prose tables
 that encode a model, and the decoder that rebuilds the model from the tables in any order.

 Cells that carry JSON text go through the codec of the flattening module. The block schema, the
 date-time check and the hash of the canonical text are the host's.
 */
module Bundle {
  import opened Common
  import opened DecimalText
  import opened Json
  import opened Cells = Flatten

  // ----- The model -----

  type Members = map<string, Json>

  /** A block: `_meta` stands apart from the rest of its content. */
  datatype Block = Block(annotation: Members, meta: Members, content: Members, extra: Members, prose: Option<string>)

  datatype Entry = Single(block: Block) | Variants(peers: map<string, Block>)

  datatype Peer = Peer(variant: Option<string>, block: Block)

  datatype Extension = One(block: Block) | Many(peers: seq<Peer>)

  datatype Collection = Sections | Pipeline | Calculations | Scenarios | Extensions | History | Unknown

  /** The block collections of a model. */
  datatype Holdings = Holdings(
    sections: map<string, Entry>,
    logs: map<Collection, seq<Block>>,
    extensions: map<string, Extension>,
    superseded: map<string, seq<Block>>)

  datatype Model = Model(
    frontmatter: Members, holdings: Holdings, generatedAt: Option<string>, generator: Option<string>,
    digest: Option<string>, extra: Members)

  // ----- Up to the sign of zero -----

  function NormalMembers(m: Members): (n: Members)
    ensures n.Keys == m.Keys && forall k :: k in m ==> n[k] == Normal(m[k])
  {
    Normal(Object(m)).members
  }

  function NormalBlock(b: Block): Block {
    Block(NormalMembers(b.annotation), NormalMembers(b.meta), NormalMembers(b.content), NormalMembers(b.extra), b.prose)
  }

  function NormalBlocks(blocks: seq<Block>): (n: seq<Block>)
    ensures |n| == |blocks| && forall i :: 0 <= i < |n| ==> n[i] == NormalBlock(blocks[i])
  {
    seq(|blocks|, i requires 0 <= i < |blocks| => NormalBlock(blocks[i]))
  }

  function NormalEntry(e: Entry): Entry {
    match e
    case Single(b) => Single(NormalBlock(b))
    case Variants(peers) => Variants(map v | v in peers :: NormalBlock(peers[v]))
  }

  function NormalExtension(e: Extension): Extension {
    match e
    case One(b) => One(NormalBlock(b))
    case Many(peers) => Many(NormalPeers(peers))
  }

  function NormalPeers(peers: seq<Peer>): (n: seq<Peer>)
    ensures |n| == |peers| && forall i :: 0 <= i < |n| ==> n[i] == Peer(peers[i].variant, NormalBlock(peers[i].block))
  {
    seq(|peers|, i requires 0 <= i < |peers| => Peer(peers[i].variant, NormalBlock(peers[i].block)))
  }

  function NormalHoldings(h: Holdings): Holdings {
    Holdings(map s | s in h.sections :: NormalEntry(h.sections[s]), map k | k in h.logs :: NormalBlocks(h.logs[k]),
             map s | s in h.extensions :: NormalExtension(h.extensions[s]),
             map s | s in h.superseded :: NormalBlocks(h.superseded[s]))
  }

  /** The model as its text keeps it: negative zero is zero. */
  function NormalModel(m: Model): Model {
    m.(frontmatter := NormalMembers(m.frontmatter), holdings := NormalHoldings(m.holdings),
        extra := NormalMembers(m.extra))
  }

  const LOGS: set<Collection> := {Pipeline, Calculations, Scenarios}

  function Name(k: Collection): string {
    match k
    case Sections => "sections"
    case Pipeline => "pipeline_log"
    case Calculations => "custom_calculations"
    case Scenarios => "custom_scenarios"
    case Extensions => "extensions"
    case History => "superseded"
    case Unknown => ""
  }

  lemma NameInjective(a: Collection, b: Collection)
    requires Name(a) == Name(b)
    ensures a == b
  {
    assert "sections"[0] == 's' && "extensions"[0] == 'e' && "superseded"[1] == 'u' && "pipeline_log"[0] == 'p';
  }

  /** Where a block stands in a model. */
  datatype Location =
    | AtSection(section: string)
    | AtVariant(section: string, variant: string)
    | AtLog(log: Collection, index: nat)
    | AtExtension(section: string)
    | AtPeer(section: string, index: nat)
    | AtHistory(section: string, index: nat)

  function CollectionOf(l: Location): Collection {
    match l
    case AtSection(_) => Sections
    case AtVariant(_, _) => Sections
    case AtLog(log, _) => log
    case AtExtension(_) => Extensions
    case AtPeer(_, _) => Extensions
    case AtHistory(_, _) => History
  }

  function PathOf(l: Location): Path {
    match l
    case AtSection(s) => [Name(Sections), s]
    case AtVariant(s, v) => [Name(Sections), s, v]
    case AtLog(log, i) => [Name(log), Dec(i)]
    case AtExtension(s) => [Name(Extensions), s, "block"]
    case AtPeer(s, i) => [Name(Extensions), s, "blocks", Dec(i), "block"]
    case AtHistory(s, i) => [Name(History), s, Dec(i)]
  }

  /** The block reference: the RFC 6901 pointer of the block in the model. */
  function RefOf(l: Location): string {
    Pointer(PathOf(l))
  }

  predicate LogLocation(l: Location) {
    l.AtLog? ==> l.log in LOGS
  }

  /** Blocks at different places have different references. */
  lemma RefInjective(a: Location, b: Location)
    requires LogLocation(a) && LogLocation(b) && RefOf(a) == RefOf(b)
    ensures a == b
  {
    PointerInjective(PathOf(a), PathOf(b));
    hide Pointer, Name, Dec;
    var p, q := PathOf(a), PathOf(b);
    assert p == q;
    assert p[0] == Name(CollectionOf(a)) && q[0] == Name(CollectionOf(b));
    NameInjective(CollectionOf(a), CollectionOf(b));
    IndexInjective(a, b);
  }

  lemma IndexInjective(a: Location, b: Location)
    requires LogLocation(a) && LogLocation(b) && PathOf(a) == PathOf(b) && CollectionOf(a) == CollectionOf(b)
    ensures a == b
  {
    hide Name, Dec;
    var p, q := PathOf(a), PathOf(b);
    assert |p| == |q| && p[1] == q[1];
    match a
    case AtLog(_, i) =>
      DecInjective(i, b.index);
    case AtPeer(_, i) =>
      assert p[3] == q[3];
      DecInjective(i, b.index);
    case AtHistory(_, i) =>
      assert p[2] == q[2];
      DecInjective(i, b.index);
    case AtVariant(_, _) =>
      assert p[2] == q[2];
    case _ =>
  }

  function BlockAt(h: Holdings, l: Location): Option<Block> {
    match l
    case AtSection(s) => if s in h.sections && h.sections[s].Single? then Some(h.sections[s].block) else None
    case AtVariant(s, v) =>
      if s in h.sections && h.sections[s].Variants? && v in h.sections[s].peers then Some(h.sections[s].peers[v])
          else None
    case AtLog(log, i) => if log in LOGS && log in h.logs && i < |h.logs[log]| then Some(h.logs[log][i]) else None
    case AtExtension(s) => if s in h.extensions && h.extensions[s].One? then Some(h.extensions[s].block) else None
    case AtPeer(s, i) =>
      if s in h.extensions && h.extensions[s].Many? && i < |h.extensions[s].peers|
          then Some(h.extensions[s].peers[i].block) else None
    case AtHistory(s, i) => if s in h.superseded && i < |h.superseded[s]| then Some(h.superseded[s][i]) else None
  }

  // ----- The encoded tables -----

  datatype Scope = Annotation | Meta | Content | Rest | UnknownScope

  datatype State = Current | Superseded
  datatype Mode = NoMode | SingleMode | VariantsMode

  datatype BlockRow = BlockRow(ref: string, collection: Collection, section: string, variant: string,
                               ordinal: string, state: State, mode: Mode)
  datatype ValueRow = ValueRow(ref: string, scope: Scope, row: Row)
  datatype ProseRow = ProseRow(ref: string, block: string, token: string)

  datatype DocumentRow = DocumentRow(generatedAt: string, generator: string, digest: string,
                                     dealId: string, dealName: string, extra: string, empty: string)

  /** The tables of a bundle and the digest its manifest states. */
  datatype Tables = Tables(document: seq<DocumentRow>, frontmatter: seq<Row>, blocks: seq<BlockRow>,
                           values: seq<ValueRow>, prose: seq<ProseRow>, manifestDigest: string)

  const SCOPES: seq<Scope> := [Annotation, Meta, Content, Rest]

  function ScopeOf(b: Block, scope: Scope): Members {
    match scope
    case Annotation => b.annotation
    case Meta => b.meta
    case Content => b.content
    case Rest => b.extra
    case UnknownScope => map[]
  }

  function TextAt(m: Members, key: string): Option<string> {
    if key in m && m[key].Text? then Some(m[key].text) else None
  }

  function SectionAt(h: Holdings, l: Location): string {
    match l
    case AtSection(s) => s
    case AtVariant(s, _) => s
    case AtLog(_, _) =>
      var b := BlockAt(h, l);
      if b.Some? && TextAt(b.value.annotation, "section").Some? then TextAt(b.value.annotation, "section").value else ""
    case AtExtension(s) => s
    case AtPeer(s, _) => s
    case AtHistory(s, _) => s
  }

  function VariantAt(h: Holdings, l: Location): Option<string> {
    match l
    case AtVariant(_, v) => Some(v)
    case AtPeer(s, i) => if BlockAt(h, l).Some? then h.extensions[s].peers[i].variant else None
    case AtLog(_, _) => None
    case AtHistory(_, _) => None
    case _ => if BlockAt(h, l).Some? then TextAt(BlockAt(h, l).value.annotation, "variant") else None
  }

  function OrdinalOf(l: Location): string {
    match l
    case AtLog(_, i) => Dec(i)
    case AtPeer(_, i) => Dec(i)
    case AtHistory(_, i) => Dec(i)
    case _ => ""
  }

  function VariantToken(c: Codec, variant: Option<string>): string {
    c.dump(if variant.Some? then Text(variant.value) else Json.Null)
  }

  /** The descriptor of the block at a location. */
  function RowAt(c: Codec, h: Holdings, l: Location): BlockRow {
    BlockRow(RefOf(l), CollectionOf(l), c.dump(Text(SectionAt(h, l))), VariantToken(c, VariantAt(h, l)), OrdinalOf(l),
             if l.AtHistory? then Superseded else Current,
             ModeOf(l))
  }

  function ModeOf(l: Location): Mode {
    if l.AtExtension? then SingleMode else if l.AtPeer? then VariantsMode else NoMode
  }

  ghost function ScopeRows(c: Codec, ref: string, scope: Scope, members: Members): seq<ValueRow> {
    var rows := Flatten(c, Object(members), "");
    seq(|rows|, k requires 0 <= k < |rows| => ValueRow(ref, scope, rows[k]))
  }

  ghost function BlockValues(c: Codec, ref: string, b: Block): seq<ValueRow> {
    ScopeRows(c, ref, Annotation, b.annotation) + ScopeRows(c, ref, Meta, b.meta)
    + ScopeRows(c, ref, Content, b.content) + ScopeRows(c, ref, Rest, b.extra)
  }

  /** A listing of a model's blocks: every occupied place once. */
  ghost predicate Lists(h: Holdings, ls: seq<Location>) {
    && (forall k :: 0 <= k < |ls| ==> BlockAt(h, ls[k]).Some? && LogLocation(ls[k]))
    && (forall k, m :: 0 <= k < m < |ls| ==> ls[k] != ls[m])
    && (forall l :: BlockAt(h, l).Some? ==> l in ls)
  }

  function BlockTable(c: Codec, h: Holdings, ls: seq<Location>): seq<BlockRow> {
    if ls == [] then [] else BlockTable(c, h, ls[..|ls| - 1]) + [RowAt(c, h, ls[|ls| - 1])]
  }

  ghost function ValueTable(c: Codec, h: Holdings, ls: seq<Location>): seq<ValueRow>
    requires forall k :: 0 <= k < |ls| ==> BlockAt(h, ls[k]).Some?
  {
    if ls == [] then []
    else
      var last := ls[|ls| - 1];
      ValueTable(c, h, ls[..|ls| - 1]) + BlockValues(c, RefOf(last), BlockAt(h, last).value)
  }

  predicate HasProse(h: Holdings, l: Location) {
    BlockAt(h, l).Some? && BlockAt(h, l).value.prose.Some?
  }

  function WithProse(h: Holdings, ls: seq<Location>): seq<Location> {
    if ls == [] then []
    else WithProse(h, ls[..|ls| - 1]) + (if HasProse(h, ls[|ls| - 1]) then [ls[|ls| - 1]] else [])
  }

  function ProseRowAt(c: Codec, h: Holdings, l: Location): ProseRow
    requires HasProse(h, l)
  {
    ProseRow(RefOf(l) + "/prose", RefOf(l), c.dump(Text(BlockAt(h, l).value.prose.value)))
  }

  function ProseTable(c: Codec, h: Holdings, ls: seq<Location>): seq<ProseRow> {
    var located := WithProse(h, ls);
    ProseListed(h, ls);
    seq(|located|, k requires 0 <= k < |located| && HasProse(h, located[k]) => ProseRowAt(c, h, located[k]))
  }

  lemma {:induction false} ProseListed(h: Holdings, ls: seq<Location>)
    ensures forall l :: l in WithProse(h, ls) <==> l in ls && HasProse(h, l)
    ensures (forall k, m :: 0 <= k < m < |ls| ==> ls[k] != ls[m]) ==>
              forall k, m :: 0 <= k < m < |WithProse(h, ls)| ==> WithProse(h, ls)[k] != WithProse(h, ls)[m]
  {
    hide HasProse;
    if ls != [] {
      ProseListed(h, ls[..|ls| - 1]);
      assert ls == ls[..|ls| - 1] + [ls[|ls| - 1]];
    }
  }

  // ----- Rows of one block among all rows -----

  /** The flattened rows stated for one block and scope, in table order. */
  function RowsOf(values: seq<ValueRow>, ref: string, scope: Scope): seq<Row> {
    if values == [] then []
    else
      var last := values[|values| - 1];
      RowsOf(values[..|values| - 1], ref, scope) + (if last.ref == ref && last.scope == scope then [last.row] else [])
  }

  /** Grouping keeps multiplicities, so it does not depend on the order of the table. */
  lemma {:induction false} RowsOfCount(values: seq<ValueRow>, ref: string, scope: Scope, row: Row)
    ensures multiset(RowsOf(values, ref, scope))[row] == multiset(values)[ValueRow(ref, scope, row)]
  {
    if values != [] {
      var last := values[|values| - 1];
      assert values == values[..|values| - 1] + [last];
      RowsOfCount(values[..|values| - 1], ref, scope, row);
    }
  }

  lemma {:induction false} RowsOfJoin(a: seq<ValueRow>, b: seq<ValueRow>, ref: string, scope: Scope)
    ensures RowsOf(a + b, ref, scope) == RowsOf(a, ref, scope) + RowsOf(b, ref, scope)
    decreases |b|
  {
    if b == [] {
      assert a + b == a;
    } else {
      assert (a + b)[..|a + b| - 1] == a + b[..|b| - 1];
      RowsOfJoin(a, b[..|b| - 1], ref, scope);
    }
  }

  /** Rows of one scope: all of them for that block and scope, none for another. */
  lemma {:induction false} RowsOfTagged(rows: seq<Row>, tagged: seq<ValueRow>, ref: string, scope: Scope, ref': string,
      scope': Scope)
    requires |tagged| == |rows| && forall k :: 0 <= k < |rows| ==> tagged[k] == ValueRow(ref, scope, rows[k])
    ensures RowsOf(tagged, ref', scope') == if ref == ref' && scope == scope' then rows else []
  {
    if rows != [] {
      var n := |rows| - 1;
      RowsOfTagged(rows[..n], tagged[..n], ref, scope, ref', scope');
      assert rows == rows[..n] + [rows[n]];
    }
  }

  lemma RowsOfScope(c: Codec, ref: string, scope: Scope, members: Members, ref': string, scope': Scope)
    ensures RowsOf(ScopeRows(c, ref, scope, members), ref', scope')
            == if ref == ref' && scope == scope' then Flatten(c, Object(members), "") else []
  {
    hide Flatten;
    RowsOfTagged(Flatten(c, Object(members), ""), ScopeRows(c, ref, scope, members), ref, scope, ref', scope');
  }

  lemma RowsOfBlock(c: Codec, ref: string, b: Block, ref': string, scope: Scope)
    requires scope != UnknownScope
    ensures RowsOf(BlockValues(c, ref, b), ref', scope)
            == if ref == ref' then Flatten(c, Object(ScopeOf(b, scope)), "") else []
  {
    hide Flatten, ScopeRows, RowsOf;
    var a, m := ScopeRows(c, ref, Annotation, b.annotation), ScopeRows(c, ref, Meta, b.meta);
    var t, x := ScopeRows(c, ref, Content, b.content), ScopeRows(c, ref, Rest, b.extra);
    RowsOfJoin(a + m + t, x, ref', scope);
    RowsOfJoin(a + m, t, ref', scope);
    RowsOfJoin(a, m, ref', scope);
    RowsOfScope(c, ref, Annotation, b.annotation, ref', scope);
    RowsOfScope(c, ref, Meta, b.meta, ref', scope);
    RowsOfScope(c, ref, Content, b.content, ref', scope);
    RowsOfScope(c, ref, Rest, b.extra, ref', scope);
  }

  /** In the whole table, the rows of a listed block and scope are its flattened members. */
  lemma {:induction false} RowsOfTable(c: Codec, h: Holdings, ls: seq<Location>, l: Location, scope: Scope)
    requires forall k :: 0 <= k < |ls| ==> BlockAt(h, ls[k]).Some? && LogLocation(ls[k])
    requires forall k, m :: 0 <= k < m < |ls| ==> ls[k] != ls[m]
    requires scope != UnknownScope && BlockAt(h, l).Some? && LogLocation(l)
    ensures RowsOf(ValueTable(c, h, ls), RefOf(l), scope)
            == if l in ls then Flatten(c, Object(ScopeOf(BlockAt(h, l).value, scope)), "") else []
  {
    hide *;
    if ls == [] {
      NoValues(c, h, RefOf(l), scope);
    } else {
      var rest, last := ls[..|ls| - 1], ls[|ls| - 1];
      assert ls == rest + [last];
      RowsOfTable(c, h, rest, l, scope);
      LastValues(c, h, ls);
      RowsOfJoin(ValueTable(c, h, rest), BlockValues(c, RefOf(last), BlockAt(h, last).value), RefOf(l), scope);
      RowsOfBlock(c, RefOf(last), BlockAt(h, last).value, RefOf(l), scope);
      if RefOf(last) == RefOf(l) {
        RefInjective(last, l);
      }
    }
  }

  lemma NoValues(c: Codec, h: Holdings, ref: string, scope: Scope)
    ensures RowsOf(ValueTable(c, h, []), ref, scope) == []
  {
  }

  lemma LastValues(c: Codec, h: Holdings, ls: seq<Location>)
    requires ls != [] && forall k :: 0 <= k < |ls| ==> BlockAt(h, ls[k]).Some?
    ensures var last := ls[|ls| - 1];
            ValueTable(c, h, ls) == ValueTable(c, h, ls[..|ls| - 1])
                + BlockValues(c, RefOf(last), BlockAt(h, last).value)
  {
    hide RefOf, BlockAt, BlockValues;
  }

  // ----- The decoder -----

  datatype Refusal =
    | Cardinality | BadFrontmatter | BadDocument | OuterOverlap | FrontmatterEcho | BadEmpty | UnknownCell | BadProse
    | BadDescriptor | DuplicateBlock | BadScope | EmptyOverlap | BadState | SectionCollision | BadReference | BadOrdinal
    | UnusedRows | Invalid | DescriptorDisagreement | DigestDisagreement

  function ReadText(c: Codec, token: string): Option<string> {
    match c.load(token)
    case Some(Text(s)) => Some(s)
    case _ => None
  }

  function ReadVariant(c: Codec, token: string): Option<Option<string>> {
    match c.load(token)
    case Some(Text(s)) => Some(Some(s))
    case Some(Null) => Some(None)
    case _ => None
  }

  function ReadObject(c: Codec, token: string): Option<Members> {
    match c.load(token)
    case Some(Object(members)) => Some(members)
    case _ => None
  }

  // ----- Empty collections -----

  function EmptyItem(path: string): Json {
    Object(map["path" := Text(path)]["kind" := Text("array")])
  }

  function EmptyItems(paths: seq<string>): seq<Json> {
    if paths == [] then [] else EmptyItems(paths[..|paths| - 1]) + [EmptyItem(paths[|paths| - 1])]
  }

  /** The path of a descriptor that states the kind its collection asks for. */
  function ReadItem(item: Json): Option<string> {
    if item.Object? && item.members.Keys == {"path", "kind"} && item.members["path"].Text?
       && item.members["kind"] == Text(EmptyKind(item.members["path"].text)) then Some(item.members["path"].text)
    else None
  }

  function EmptyKind(path: string): string {
    match Parts(path)
    case Some(p) => if p != [] && p[0] == Name(History) then "array" else "object"
    case None => "object"
  }

  function ReadItems(items: seq<Json>): Option<seq<string>> {
    if items == [] then Some([])
    else
      match (ReadItems(items[..|items| - 1]), ReadItem(items[|items| - 1]))
      case (Some(paths), Some(path)) => Some(paths + [path])
      case _ => None
  }

  /** The descriptors of empty collections. */
  function ReadEmpty(c: Codec, token: string): Option<seq<string>> {
    match c.load(token)
    case Some(Array(items)) => ReadItems(items)
    case _ => None
  }

  function Vacant(): Holdings {
    Holdings(map[], map log | log in LOGS :: [], map[], map[])
  }

  /** One descriptor of an empty collection, after the previous one in order. */
  function AddEmpty(h: Holdings, previous: string, path: string): Option<Holdings> {
    if !(UnitsAtMost(Units(previous), Units(path)) && previous != path) then None
    else
      match Parts(path)
      case Some(p) =>
        if |p| == 2 && p[0] == Name(Sections) then Some(h.(sections := h.sections[p[1] := Variants(map[])]))
        else if |p| == 2 && p[0] == Name(History) then Some(h.(superseded := h.superseded[p[1] := []]))
        else None
      case None => None
  }

  function StartEmpty(empty: seq<string>): Option<Holdings> {
    if empty == [] then Some(Vacant())
    else
      var n := |empty| - 1;
      match StartEmpty(empty[..n])
      case Some(h) => AddEmpty(h, if n == 0 then "" else empty[n - 1], empty[n])
      case None => None
  }

  // ----- Prose -----

  function ReadProse(c: Codec, rows: seq<ProseRow>): Option<map<string, string>> {
    if rows == [] then Some(map[])
    else
      var last := rows[|rows| - 1];
      match ReadProse(c, rows[..|rows| - 1])
      case Some(prose) =>
        if last.ref == last.block + "/prose" && last.block !in prose && ReadText(c, last.token).Some? then
          Some(prose[last.block := ReadText(c, last.token).value])
        else None
      case None => None
  }

  // ----- The order in which blocks are placed -----

  function RankOf(k: Collection): nat {
    match k
    case Sections => 0
    case Pipeline => 1
    case Calculations => 2
    case Scenarios => 3
    case Extensions => 4
    case History => 5
    case Unknown => 99
  }

  function OrdinalKey(ordinal: string): Option<int> {
    var none: int := -1;
    if ordinal == "" then Some(none)
    else if IsNumeral(ordinal) then Some(Nat(ordinal) as int)
    else None
  }

  /** Rank, section, ordinal and reference, as one list to compare. */
  function OrderKey(c: Codec, row: BlockRow): Option<seq<int>> {
    var section, ordinal := ReadText(c, row.section), OrdinalKey(row.ordinal);
    if section.None? || ordinal.None? then None
    else Some(GroupKey(row.collection, section.value) + [ordinal.value] + Units(row.ref))
  }

  function GroupKey(k: Collection, section: string): seq<int> {
    [RankOf(k)] + (if k in LOGS then [] else Units(section)) + [-1]
  }

  predicate NotAfter(c: Codec, a: BlockRow, b: BlockRow) {
    OrderKey(c, a).Some? && OrderKey(c, b).Some? && UnitsAtMost(OrderKey(c, a).value, OrderKey(c, b).value)
  }

  function InsertRow(c: Codec, row: BlockRow, rows: seq<BlockRow>): seq<BlockRow> {
    if rows == [] then [row]
    else if NotAfter(c, row, rows[0]) then [row] + rows
    else [rows[0]] + InsertRow(c, row, rows[1..])
  }

  function SortRows(c: Codec, rows: seq<BlockRow>): seq<BlockRow> {
    if rows == [] then [] else InsertRow(c, rows[|rows| - 1], SortRows(c, rows[..|rows| - 1]))
  }

  // ----- One block -----

  function ReadScope(c: Codec, values: seq<ValueRow>, ref: string, scope: Scope): Option<Members> {
    match Unflatten(c, RowsOf(values, ref, scope))
    case Some(Object(members)) => Some(members)
    case _ => None
  }

  predicate FreeOf(m: Members) {
    "annotation" !in m && "content" !in m && "prose" !in m
  }

  function ReadBlock(c: Codec, values: seq<ValueRow>, prose: map<string, string>, ref: string): Option<Block> {
    var a, m := ReadScope(c, values, ref, Annotation), ReadScope(c, values, ref, Meta);
    var t, x := ReadScope(c, values, ref, Content), ReadScope(c, values, ref, Rest);
    if a.None? || m.None? || t.None? || x.None? || "_meta" in t.value || !FreeOf(x.value) then None
    else Some(Block(a.value, m.value, t.value, x.value, if ref in prose then Some(prose[ref]) else None))
  }

  predicate Overlaps(path: Path, empty: seq<string>) {
    exists k :: 0 <= k < |empty| && Parts(empty[k]).Some? && Parts(empty[k]).value <= path
  }

  predicate VariantStated(b: Block, variant: Option<string>) {
    if variant.Some? then "variant" in b.annotation && b.annotation["variant"] == Text(variant.value)
    else "variant" !in b.annotation || b.annotation["variant"] == Json.Null
  }

  function PlaceSection(h: Holdings, path: Path, section: string, variant: Option<string>, ordinal: string,
      b: Block): Result<Holdings, Refusal>
  {
    if !(ordinal == "" && 2 <= |path| <= 3 && path[..2] == [Name(Sections), section]) then Failure(BadReference)
    else if |path| == 2 then
      if section in h.sections then Failure(SectionCollision)
      else Success(h.(sections := h.sections[section := Single(b)]))
    else if variant != Some(path[2]) then Failure(BadReference)
    else
      var parent := if section in h.sections then h.sections[section] else Variants(map[]);
      if !parent.Variants? || path[2] in parent.peers then Failure(SectionCollision)
      else Success(h.(sections := h.sections[section := Variants(parent.peers[path[2] := b])]))
  }

  function PlaceLog(h: Holdings, log: Collection, path: Path, variant: Option<string>, ordinal: string,
      b: Block): Result<Holdings, Refusal>
    requires log in h.logs
  {
    if variant.Some? || path != [Name(log), ordinal] then Failure(BadReference)
    else if ordinal != Dec(|h.logs[log]|) then Failure(BadOrdinal)
    else Success(h.(logs := h.logs[log := h.logs[log] + [b]]))
  }

  function PlaceHistory(h: Holdings, path: Path, section: string, variant: Option<string>, ordinal: string,
      b: Block): Result<Holdings, Refusal>
  {
    var parent := if section in h.superseded then h.superseded[section] else [];
    if variant.Some? || path != [Name(History), section, ordinal] then Failure(BadReference)
    else if ordinal != Dec(|parent|) then Failure(BadOrdinal)
    else Success(h.(superseded := h.superseded[section := parent + [b]]))
  }

  function PlaceExtension(h: Holdings, path: Path, section: string, variant: Option<string>, ordinal: string,
      mode: Mode, b: Block): Result<Holdings, Refusal>
  {
    if mode == SingleMode then
      if path != [Name(Extensions), section, "block"] || ordinal != "" || section in h.extensions
          || !VariantStated(b, variant) then
        Failure(BadReference)
      else Success(h.(extensions := h.extensions[section := One(b)]))
    else if mode == VariantsMode then
      var parent := if section in h.extensions then h.extensions[section] else Many([]);
      if path != [Name(Extensions), section, "blocks", ordinal, "block"] then Failure(BadReference)
      else if !parent.Many? || ordinal != Dec(|parent.peers|) then Failure(BadOrdinal)
      else Success(h.(extensions := h.extensions[section := Many(parent.peers + [Peer(variant, b)])]))
    else Failure(BadReference)
  }

  function PlaceBy(h: Holdings, k: Collection, path: Path, section: string, variant: Option<string>, ordinal: string,
      mode: Mode, b: Block): Result<Holdings, Refusal>
  {
    match k
    case Sections => PlaceSection(h, path, section, variant, ordinal, b)
    case Extensions => PlaceExtension(h, path, section, variant, ordinal, mode, b)
    case History => PlaceHistory(h, path, section, variant, ordinal, b)
    case Unknown => Failure(BadReference)
    case log => if log in h.logs then PlaceLog(h, log, path, variant, ordinal, b) else Failure(BadReference)
  }

  /** One block row: the block is put where its reference says, or refused. */
  function Place(c: Codec, h: Holdings, row: BlockRow, b: Block, empty: seq<string>): Result<Holdings, Refusal> {
    var section, variant, path := ReadText(c, row.section), ReadVariant(c, row.variant), Parts(row.ref);
    if section.None? || variant.None? || path.None? then Failure(BadDescriptor)
    else if Overlaps(path.value, empty) then Failure(EmptyOverlap)
    else if row.state != (if row.collection == History then Superseded else Current) then Failure(BadState)
    else if row.collection != Extensions && row.mode != NoMode then Failure(BadState)
    else PlaceBy(h, row.collection, path.value, section.value, variant.value, row.ordinal, row.mode, b)
  }

  /** The loop over the first n sorted block rows. */
  function PlaceRows(c: Codec, t: Tables, prose: map<string, string>, start: Holdings, empty: seq<string>,
      rows: seq<BlockRow>, n: nat): Result<Holdings, Refusal>
    requires n <= |rows|
  {
    if n == 0 then Success(start)
    else
      var h :- PlaceRows(c, t, prose, start, empty, rows, n - 1);
      var row := rows[n - 1];
      if exists k :: 0 <= k < n - 1 && rows[k].ref == row.ref then Failure(DuplicateBlock)
      else
        match ReadBlock(c, t.values, prose, row.ref)
        case None => Failure(BadScope)
        case Some(b) => Place(c, h, row, b, empty)
  }

  // ----- The model as one JSON value -----

  function BlockJson(b: Block): Json {
    var members := b.extra["annotation" := Object(b.annotation)]
        ["content" := Object(b.content["_meta" := Object(b.meta)])];
    Object(if b.prose.Some? then members["prose" := Text(b.prose.value)] else members)
  }

  function EntryJson(e: Entry): Json {
    match e
    case Single(b) => BlockJson(b)
    case Variants(peers) => Object(map v | v in peers :: BlockJson(peers[v]))
  }

  function PeerJson(p: Peer): Json {
    Object(map["variant" := if p.variant.Some? then Text(p.variant.value) else Json.Null]
        ["block" := BlockJson(p.block)])
  }

  function ExtensionJson(e: Extension): Json {
    match e
    case One(b) => Object(map["mode" := Text("single")]["block" := BlockJson(b)])
    case Many(peers) =>
      Object(map["mode" := Text("variants")]
          ["blocks" := Array(seq(|peers|, i requires 0 <= i < |peers| => PeerJson(peers[i])))])
  }

  function ListJson(blocks: seq<Block>): Json {
    Array(seq(|blocks|, i requires 0 <= i < |blocks| => BlockJson(blocks[i])))
  }

  function LogJson(h: Holdings, log: Collection): Json {
    ListJson(if log in h.logs then h.logs[log] else [])
  }

  function SectionsJson(sections: map<string, Entry>): Members {
    map s | s in sections :: EntryJson(sections[s])
  }

  function ExtensionsJson(extensions: map<string, Extension>): Members {
    map s | s in extensions :: ExtensionJson(extensions[s])
  }

  function HistoryJson(superseded: map<string, seq<Block>>): Members {
    map s | s in superseded :: ListJson(superseded[s])
  }

  /** Other members with the stated parts put among them. */
  function Outer(extra: Members, frontmatter: Json, sections: Json, logs: (Json, Json, Json), extensions: Json,
      history: Json): Members
  {
    extra["envelope_version" := Text("2.0")]["format_version" := Text("3.0")]["frontmatter" := frontmatter]
        ["sections" := sections]
         ["pipeline_log" := logs.0]["custom_calculations" := logs.1]["custom_scenarios" := logs.2]
         ["extensions" := extensions]["superseded" := history]
  }

  /** The model without its generation time, its generator and its digest. */
  function ModelJson(m: Model): Json {
    var h := m.holdings;
    Object(Outer(m.extra, Object(m.frontmatter), Object(SectionsJson(h.sections)),
                 (LogJson(h, Pipeline), LogJson(h, Calculations), LogJson(h, Scenarios)),
                 Object(ExtensionsJson(h.extensions)), Object(HistoryJson(h.superseded))))
  }

  /** The semantic digest: the hash of the canonical text. */
  function Digest(host: Host, m: Model): string {
    host.sha(host.codec.dump(ModelJson(m)))
  }

  // ----- Validity -----

  /** What the host decides: the block schema, lifecycle, date-times and the hash. */
  datatype Host = Host(codec: Codec, admits: Block -> bool, historical: Block -> bool, dateTime: string -> bool,
      sha: string -> string) {
    /** The host compares numbers as numbers: it does not tell negative zero from zero. */
    ghost predicate Unsigned() {
      forall b :: admits(NormalBlock(b)) == admits(b) && historical(NormalBlock(b)) == historical(b)
    }
  }

  /** Every number of the block is finite. */
  predicate StorableBlock(b: Block) {
    Storable(Object(b.annotation)) && Storable(Object(b.meta)) && Storable(Object(b.content))
        && Storable(Object(b.extra))
  }

  predicate BlockValid(host: Host, section: string, b: Block) {
    && section != "" && TextAt(b.annotation, "section") == Some(section) && TextAt(b.meta, "section") == Some(section)
    && ("variant" in b.annotation ==> b.annotation["variant"].Text?)
    && (forall k :: k in b.annotation ==> b.annotation[k].Bool? || b.annotation[k].Number? || b.annotation[k].Text?)
    && "_meta" !in b.content && FreeOf(b.extra) && StorableBlock(b) && host.admits(b)
  }

  /** Unlabelled first, then in UTF-16 order, no two alike. */
  predicate PeersOrdered(peers: seq<Peer>) {
    forall i, j :: 0 <= i < j < |peers| ==> Before(peers[i].variant, peers[j].variant)
  }

  predicate ExtensionValid(host: Host, section: string, e: Extension) {
    && |section| >= 2 && section[..2] == "x_"
    && match e
       case One(b) => !host.historical(b)
       case Many(peers) =>
         peers != [] && PeersOrdered(peers)
         && forall i :: 0 <= i < |peers| ==>
             VariantStated(peers[i].block, peers[i].variant) && !host.historical(peers[i].block)
  }

  const RESERVED: set<string> := {
    "envelope_version", "format_version", "generated_at", "generator", "semantic_digest", "frontmatter", "sections",
    "pipeline_log", "custom_calculations", "custom_scenarios", "extensions", "superseded"}

  /** The checks of a model outside its blocks. */
  predicate OuterValid(host: Host, m: Model) {
    && TextAt(m.frontmatter, "deal_id").Some? && TextAt(m.frontmatter, "deal_name").Some?
    && TextAt(m.frontmatter, "uw_version") == Some("3.0")
    && ("asset_class" in m.frontmatter ==> m.frontmatter["asset_class"].Text?)
    && (m.generatedAt.Some? ==> host.dateTime(m.generatedAt.value))
    && (m.generator.Some? ==> m.generator.value != "")
    && m.extra.Keys !! RESERVED
    && Storable(Object(m.frontmatter)) && Storable(Object(m.extra)) && Nests(ModelJson(m), CELL_DEPTH)
  }

  ghost predicate HoldingsValid(host: Host, h: Holdings) {
    && (forall l :: BlockAt(h, l).Some? ==> BlockValid(host, SectionAt(h, l), BlockAt(h, l).value))
    && (forall s :: s in h.sections && h.sections[s].Variants? ==> h.sections[s].peers != map[])
    && (forall s :: s in h.extensions ==> ExtensionValid(host, s, h.extensions[s]))
  }

  /** The shape checks of a model, before its digest is compared. */
  ghost predicate Valid(host: Host, m: Model) {
    OuterValid(host, m) && m.holdings.logs.Keys == LOGS && HoldingsValid(host, m.holdings)
  }

  /** The received descriptors are those of the model, in some order. */
  ghost predicate DescriptorsAgree(c: Codec, h: Holdings, rows: seq<BlockRow>) {
    exists ls: seq<Location> :: Lists(h, ls) && multiset(BlockTable(c, h, ls)) == multiset(rows)
  }

  predicate HasRow(rows: seq<BlockRow>, ref: string) {
    exists m :: 0 <= m < |rows| && rows[m].ref == ref
  }

  predicate AllUsed(t: Tables, prose: map<string, string>) {
    && (forall k :: 0 <= k < |t.values| ==> HasRow(t.blocks, t.values[k].ref))
    && (forall ref :: ref in prose ==> HasRow(t.blocks, ref))
  }

  predicate ScopesKnown(t: Tables) {
    forall k :: 0 <= k < |t.values| ==> t.values[k].scope != UnknownScope
  }

  /** Reads the rows' sections and ordinals, all of them, before sorting. */
  predicate Orderable(c: Codec, rows: seq<BlockRow>) {
    forall k :: 0 <= k < |rows| ==> OrderKey(c, rows[k]).Some?
  }

  /** The row with its cells dumped again. */
  function Redumped(c: Codec, row: BlockRow): BlockRow {
    row.(section := if ReadText(c, row.section).Some? then c.dump(Text(ReadText(c, row.section).value))
        else row.section,
         variant := if ReadVariant(c, row.variant).Some? then VariantToken(c, ReadVariant(c, row.variant).value)
             else row.variant)
  }

  function RedumpedAll(c: Codec, rows: seq<BlockRow>): seq<BlockRow> {
    seq(|rows|, k requires 0 <= k < |rows| => Redumped(c, rows[k]))
  }

  ghost function Decode(host: Host, t: Tables): Result<Model, Refusal> {
    var c := host.codec;
    if |t.document| != 1 then Failure(Cardinality)
    else
      var doc := t.document[0];
      match Unflatten(c, t.frontmatter)
      case Some(Object(frontmatter)) =>
        (match (ReadVariant(c, doc.generatedAt), ReadVariant(c, doc.generator), ReadObject(c, doc.extra),
            ReadEmpty(c, doc.empty))
         case (Some(generatedAt), Some(generator), Some(extra), Some(empty)) =>
           if extra.Keys * RESERVED != {} then Failure(OuterOverlap)
           else if ReadText(c, doc.dealId).None? || TextAt(frontmatter, "deal_id") != ReadText(c, doc.dealId)
                   || ReadText(c, doc.dealName).None?
                       || TextAt(frontmatter, "deal_name") != ReadText(c, doc.dealName) then
             Failure(FrontmatterEcho)
           else if StartEmpty(empty).None? then Failure(BadEmpty)
           else if !ScopesKnown(t) then Failure(UnknownCell)
           else if ReadProse(c, t.prose).None? then Failure(BadProse)
           else if !Orderable(c, t.blocks) then Failure(BadDescriptor)
           else
             var rows, prose := SortRows(c, t.blocks), ReadProse(c, t.prose).value;
             SortKeepsRows(c, t.blocks);
             var holdings :- PlaceRows(c, t, prose, StartEmpty(empty).value, empty, rows, |rows|);
             var m := Model(frontmatter, holdings, generatedAt, generator, Some(doc.digest), extra);
             if !AllUsed(t, prose) then Failure(UnusedRows)
             else if !Valid(host, m) then Failure(Invalid)
             else if !DescriptorsAgree(c, holdings, RedumpedAll(c, rows)) then Failure(DescriptorDisagreement)
             else if t.manifestDigest != doc.digest || Digest(host, m) != doc.digest then Failure(DigestDisagreement)
             else Success(m)
         case _ => Failure(BadDocument))
      case _ => Failure(BadFrontmatter)
  }

  lemma {:induction false} InsertKeeps(c: Codec, row: BlockRow, rows: seq<BlockRow>)
    ensures multiset(InsertRow(c, row, rows)) == multiset(rows) + multiset{row}
  {
    hide NotAfter;
    if rows != [] {
      assert rows == [rows[0]] + rows[1..];
      if !NotAfter(c, row, rows[0]) {
        InsertKeeps(c, row, rows[1..]);
      }
    }
  }

  lemma {:induction false} SortKeepsRows(c: Codec, rows: seq<BlockRow>)
    ensures multiset(SortRows(c, rows)) == multiset(rows) && |SortRows(c, rows)| == |rows|
  {
    if rows != [] {
      var last := rows[|rows| - 1];
      assert rows == rows[..|rows| - 1] + [last];
      SortKeepsRows(c, rows[..|rows| - 1]);
      InsertKeeps(c, last, SortRows(c, rows[..|rows| - 1]));
      assert |multiset(SortRows(c, rows))| == |SortRows(c, rows)|;
    }
  }

  // ----- What the placed blocks show of the model -----

  /** The variants of a section received so far. */
  function Received(s: string, peers: map<string, Block>, refs: set<string>): map<string, Block> {
    map v | v in peers && RefOf(AtVariant(s, v)) in refs :: peers[v]
  }

  ghost predicate SectionHolds(h: Holdings, got: Holdings, refs: set<string>, s: string) {
    if s !in h.sections then s !in got.sections
    else
      match h.sections[s]
      case Single(b) =>
        && (s in got.sections <==> RefOf(AtSection(s)) in refs)
        && (s in got.sections ==> got.sections[s] == Single(b))
      case Variants(peers) =>
        && (s in got.sections <==> Received(s, peers, refs) != map[])
        && (s in got.sections ==> got.sections[s] == Variants(Received(s, peers, refs)))
  }

  /** The items of a list received so far are a prefix of it, whose references were read. */
  ghost predicate ListHolds<T>(whole: seq<T>, got: seq<T>, at: nat -> Location, refs: set<string>) {
    && |got| <= |whole| && got == whole[..|got|]
    && forall i: nat :: i < |whole| ==> (RefOf(at(i)) in refs <==> i < |got|)
  }

  function LogAt(log: Collection): nat -> Location {
    (i: nat) => AtLog(log, i)
  }

  function PeerAt(s: string): nat -> Location {
    (i: nat) => AtPeer(s, i)
  }

  function HistoryAt(s: string): nat -> Location {
    (i: nat) => AtHistory(s, i)
  }

  ghost predicate LogHolds(h: Holdings, got: Holdings, refs: set<string>, log: Collection) {
    log in h.logs && log in got.logs && ListHolds(h.logs[log], got.logs[log], LogAt(log), refs)
  }

  function HistoryOf(h: Holdings, s: string): seq<Block> {
    if s in h.superseded then h.superseded[s] else []
  }

  ghost predicate HistoryHolds(h: Holdings, got: Holdings, refs: set<string>, s: string) {
    if s !in h.superseded then s !in got.superseded
    else
      && (s in got.superseded <==> h.superseded[s] == [] || HistoryOf(got, s) != [])
      && ListHolds(h.superseded[s], HistoryOf(got, s), HistoryAt(s), refs)
  }

  function PeersOf(h: Holdings, s: string): seq<Peer> {
    if s in h.extensions && h.extensions[s].Many? then h.extensions[s].peers else []
  }

  ghost predicate ExtensionHolds(h: Holdings, got: Holdings, refs: set<string>, s: string) {
    if s !in h.extensions then s !in got.extensions
    else
      match h.extensions[s]
      case One(b) =>
        && (s in got.extensions <==> RefOf(AtExtension(s)) in refs)
        && (s in got.extensions ==> got.extensions[s] == One(b))
      case Many(peers) =>
        && (s in got.extensions <==> PeersOf(got, s) != [])
        && (s in got.extensions ==> got.extensions[s].Many?)
        && ListHolds(peers, PeersOf(got, s), PeerAt(s), refs)
  }

  ghost predicate Holds(h: Holdings, got: Holdings, refs: set<string>) {
    && got.logs.Keys == LOGS
    && (forall s :: SectionHolds(h, got, refs, s))
    && (forall log :: log in LOGS ==> LogHolds(h, got, refs, log))
    && (forall s :: HistoryHolds(h, got, refs, s))
    && (forall s :: ExtensionHolds(h, got, refs, s))
  }

  // ----- Reading another block does not disturb the rest -----

  /** A place other than l is read after l's block exactly when it was read before. */
  lemma OtherRef(refs: set<string>, l: Location, other: Location)
    requires LogLocation(l) && LogLocation(other) && other != l
    ensures RefOf(other) in refs + {RefOf(l)} <==> RefOf(other) in refs
  {
    if RefOf(other) == RefOf(l) {
      RefInjective(l, other);
    }
  }

  lemma OtherSection(h: Holdings, got: Holdings, after: Holdings, refs: set<string>, l: Location, s: string)
    requires LogLocation(l) && SectionHolds(h, got, refs, s)
    requires !((l.AtSection? || l.AtVariant?) && l.section == s)
    requires (s in after.sections <==> s in got.sections)
    requires (s in got.sections ==> after.sections[s] == got.sections[s])
    ensures SectionHolds(h, after, refs + {RefOf(l)}, s)
  {
    OtherRef(refs, l, AtSection(s));
    if s in h.sections && h.sections[s].Variants? {
      OtherVariants(s, h.sections[s].peers, refs, l);
    }
    hide RefOf, Received;
  }

  lemma OtherVariants(s: string, peers: map<string, Block>, refs: set<string>, l: Location)
    requires LogLocation(l) && !(l.AtVariant? && l.section == s)
    ensures Received(s, peers, refs + {RefOf(l)}) == Received(s, peers, refs)
  {
    hide RefOf;
    forall v | v in peers
      ensures RefOf(AtVariant(s, v)) in refs + {RefOf(l)} <==> RefOf(AtVariant(s, v)) in refs
    {
      OtherRef(refs, l, AtVariant(s, v));
    }
  }

  lemma OtherList<T>(whole: seq<T>, got: seq<T>, at: nat -> Location, refs: set<string>, l: Location)
    requires LogLocation(l) && ListHolds(whole, got, at, refs)
    requires forall i: nat :: i < |whole| ==> LogLocation(at(i)) && at(i) != l
    ensures ListHolds(whole, got, at, refs + {RefOf(l)})
  {
    hide RefOf;
    forall i: nat | i < |whole|
      ensures RefOf(at(i)) in refs + {RefOf(l)} <==> i < |got|
    {
      OtherRef(refs, l, at(i));
    }
  }

  lemma OtherLog(h: Holdings, got: Holdings, after: Holdings, refs: set<string>, l: Location, log: Collection)
    requires LogLocation(l) && log in LOGS && LogHolds(h, got, refs, log)
    requires !(l.AtLog? && l.log == log)
    requires log in after.logs && after.logs[log] == got.logs[log]
    ensures LogHolds(h, after, refs + {RefOf(l)}, log)
  {
    hide RefOf, ListHolds;
    OtherList(h.logs[log], got.logs[log], LogAt(log), refs, l);
  }

  lemma OtherHistory(h: Holdings, got: Holdings, after: Holdings, refs: set<string>, l: Location, s: string)
    requires LogLocation(l) && HistoryHolds(h, got, refs, s)
    requires !(l.AtHistory? && l.section == s)
    requires (s in after.superseded <==> s in got.superseded)
    requires (s in got.superseded ==> after.superseded[s] == got.superseded[s])
    ensures HistoryHolds(h, after, refs + {RefOf(l)}, s)
  {
    hide RefOf, ListHolds;
    if s in h.superseded {
      OtherList(h.superseded[s], HistoryOf(got, s), HistoryAt(s), refs, l);
    }
  }

  lemma OtherExtension(h: Holdings, got: Holdings, after: Holdings, refs: set<string>, l: Location, s: string)
    requires LogLocation(l) && ExtensionHolds(h, got, refs, s)
    requires !((l.AtExtension? || l.AtPeer?) && l.section == s)
    requires (s in after.extensions <==> s in got.extensions)
    requires (s in got.extensions ==> after.extensions[s] == got.extensions[s])
    ensures ExtensionHolds(h, after, refs + {RefOf(l)}, s)
  {
    OtherRef(refs, l, AtExtension(s));
    hide RefOf, ListHolds;
    if s in h.extensions && h.extensions[s].Many? {
      OtherList(h.extensions[s].peers, PeersOf(got, s), PeerAt(s), refs, l);
    }
  }

  // ----- Placing one block -----

  /** The earlier items of the same list have been read. */
  ghost predicate Ready(l: Location, refs: set<string>) {
    match l
    case AtLog(log, n) => forall i: nat :: i < n ==> RefOf(LogAt(log)(i)) in refs
    case AtPeer(s, n) => forall i: nat :: i < n ==> RefOf(PeerAt(s)(i)) in refs
    case AtHistory(s, n) => forall i: nat :: i < n ==> RefOf(HistoryAt(s)(i)) in refs
    case _ => true
  }

  lemma ListRead<T>(whole: seq<T>, got: seq<T>, at: nat -> Location, refs: set<string>, i: nat)
    requires ListHolds(whole, got, at, refs) && i < |whole|
    ensures RefOf(at(i)) in refs <==> i < |got|
  {
  }

  /** The next item of a list takes its place at the end. */
  lemma NextItem<T>(whole: seq<T>, got: seq<T>, at: nat -> Location, refs: set<string>, n: nat)
    requires ListHolds(whole, got, at, refs) && n < |whole| && RefOf(at(n)) !in refs
    requires forall i: nat :: i < n ==> RefOf(at(i)) in refs
    requires forall i: nat :: i < |whole| ==> LogLocation(at(i))
    requires forall i: nat, j: nat :: at(i) == at(j) ==> i == j
    ensures n == |got| && ListHolds(whole, got + [whole[n]], at, refs + {RefOf(at(n))})
  {
    hide RefOf;
    ListRead(whole, got, at, refs, n);
    if |got| < |whole| {
      ListRead(whole, got, at, refs, |got|);
    }
    forall i: nat | i < |whole| && i != n
      ensures RefOf(at(i)) in refs + {RefOf(at(n))} <==> i < |got|
    {
      OtherRef(refs, at(n), at(i));
    }
  }

  predicate InSection(l: Location, s: string) {
    (l.AtSection? || l.AtVariant?) && l.section == s
  }

  predicate InExtension(l: Location, s: string) {
    (l.AtExtension? || l.AtPeer?) && l.section == s
  }

  predicate InHistory(l: Location, s: string) {
    l.AtHistory? && l.section == s
  }

  predicate InLog(l: Location, log: Collection) {
    l.AtLog? && l.log == log
  }

  ghost predicate SameEntry<T>(a: map<string, T>, b: map<string, T>, s: string) {
    (s in a <==> s in b) && (s in a ==> a[s] == b[s])
  }

  /** Only the entry a location belongs to may differ. */
  ghost predicate Untouched(got: Holdings, after: Holdings, l: Location) {
    && got.logs.Keys == LOGS && after.logs.Keys == LOGS
    && (forall s :: !InSection(l, s) ==> SameEntry(got.sections, after.sections, s))
    && (forall log :: log in LOGS && !InLog(l, log) ==> after.logs[log] == got.logs[log])
    && (forall s :: !InHistory(l, s) ==> SameEntry(got.superseded, after.superseded, s))
    && (forall s :: !InExtension(l, s) ==> SameEntry(got.extensions, after.extensions, s))
  }

  /** The entry a location belongs to holds. */
  ghost predicate HoldsAt(h: Holdings, got: Holdings, refs: set<string>, l: Location) {
    match l
    case AtSection(s) => SectionHolds(h, got, refs, s)
    case AtVariant(s, _) => SectionHolds(h, got, refs, s)
    case AtLog(log, _) => log in LOGS ==> LogHolds(h, got, refs, log)
    case AtExtension(s) => ExtensionHolds(h, got, refs, s)
    case AtPeer(s, _) => ExtensionHolds(h, got, refs, s)
    case AtHistory(s, _) => HistoryHolds(h, got, refs, s)
  }

  /** The parts of the model that a placement did not touch still hold. */
  lemma RestHolds(h: Holdings, got: Holdings, after: Holdings, refs: set<string>, l: Location)
    requires Holds(h, got, refs) && LogLocation(l) && Untouched(got, after, l)
    requires HoldsAt(h, after, refs + {RefOf(l)}, l)
    ensures Holds(h, after, refs + {RefOf(l)})
  {
    var more := refs + {RefOf(l)};
    hide RefOf, SectionHolds, LogHolds, HistoryHolds, ExtensionHolds;
    forall s
      ensures SectionHolds(h, after, more, s)
    {
      if !InSection(l, s) {
        assert SameEntry(got.sections, after.sections, s);
        OtherSection(h, got, after, refs, l, s);
      }
    }
    forall log | log in LOGS
      ensures LogHolds(h, after, more, log)
    {
      if !InLog(l, log) {
        OtherLog(h, got, after, refs, l, log);
      }
    }
    forall s
      ensures HistoryHolds(h, after, more, s)
    {
      if !InHistory(l, s) {
        assert SameEntry(got.superseded, after.superseded, s);
        OtherHistory(h, got, after, refs, l, s);
      }
    }
    forall s
      ensures ExtensionHolds(h, after, more, s)
    {
      if !InExtension(l, s) {
        assert SameEntry(got.extensions, after.extensions, s);
        OtherExtension(h, got, after, refs, l, s);
      }
    }
  }

  lemma EntryHolds(h: Holdings, got: Holdings, refs: set<string>, l: Location)
    requires Holds(h, got, refs)
    ensures HoldsAt(h, got, refs, l)
  {
    hide SectionHolds, LogHolds, HistoryHolds, ExtensionHolds;
  }

  /** The holdings with one more block, put where its location says. */
  function Put(h: Holdings, got: Holdings, l: Location): Holdings
    requires BlockAt(h, l).Some? && got.logs.Keys == LOGS
  {
    var b := BlockAt(h, l).value;
    match l
    case AtSection(s) => got.(sections := got.sections[s := Single(b)])
    case AtVariant(s, v) =>
      var peers := if s in got.sections && got.sections[s].Variants? then got.sections[s].peers else map[];
      got.(sections := got.sections[s := Variants(peers[v := b])])
    case AtLog(log, _) => got.(logs := got.logs[log := got.logs[log] + [b]])
    case AtExtension(s) => got.(extensions := got.extensions[s := One(b)])
    case AtPeer(s, i) => got.(extensions := got.extensions[s := Many(PeersOf(got, s) + [h.extensions[s].peers[i]])])
    case AtHistory(s, _) => got.(superseded := got.superseded[s := HistoryOf(got, s) + [b]])
  }

  lemma PutUntouched(h: Holdings, got: Holdings, l: Location)
    requires BlockAt(h, l).Some? && got.logs.Keys == LOGS && LogLocation(l)
    ensures Untouched(got, Put(h, got, l), l)
  {
    hide BlockAt, PeersOf, HistoryOf;
    assert forall s :: InSection(l, s) || InExtension(l, s) || InHistory(l, s) ==> s == l.section;
  }

  lemma PutSection(h: Holdings, got: Holdings, refs: set<string>, s: string)
    requires Holds(h, got, refs) && BlockAt(h, AtSection(s)).Some? && RefOf(AtSection(s)) !in refs
    ensures s !in got.sections && HoldsAt(h, Put(h, got, AtSection(s)), refs + {RefOf(AtSection(s))}, AtSection(s))
  {
    EntryHolds(h, got, refs, AtSection(s));
    hide RefOf, Received, Holds;
  }

  lemma PutExtension(h: Holdings, got: Holdings, refs: set<string>, s: string)
    requires Holds(h, got, refs) && BlockAt(h, AtExtension(s)).Some? && RefOf(AtExtension(s)) !in refs
    ensures s !in got.extensions
    ensures HoldsAt(h, Put(h, got, AtExtension(s)), refs + {RefOf(AtExtension(s))}, AtExtension(s))
  {
    EntryHolds(h, got, refs, AtExtension(s));
    hide RefOf, ListHolds, Holds;
  }

  lemma MoreReceived(s: string, peers: map<string, Block>, refs: set<string>, v: string)
    requires v in peers && RefOf(AtVariant(s, v)) !in refs
    ensures v !in Received(s, peers, refs)
    ensures Received(s, peers, refs + {RefOf(AtVariant(s, v))}) == Received(s, peers, refs)[v := peers[v]]
  {
    hide RefOf;
    forall w | w in peers && w != v
      ensures RefOf(AtVariant(s, w)) in refs + {RefOf(AtVariant(s, v))} <==> RefOf(AtVariant(s, w)) in refs
    {
      OtherRef(refs, AtVariant(s, v), AtVariant(s, w));
    }
  }

  lemma PutVariant(h: Holdings, got: Holdings, refs: set<string>, s: string, v: string)
    requires Holds(h, got, refs) && BlockAt(h, AtVariant(s, v)).Some? && RefOf(AtVariant(s, v)) !in refs
    ensures s in got.sections ==> got.sections[s].Variants? && v !in got.sections[s].peers
    ensures HoldsAt(h, Put(h, got, AtVariant(s, v)), refs + {RefOf(AtVariant(s, v))}, AtVariant(s, v))
  {
    EntryHolds(h, got, refs, AtVariant(s, v));
    MoreReceived(s, h.sections[s].peers, refs, v);
    hide RefOf, Received, Holds;
    assert v in Received(s, h.sections[s].peers, refs + {RefOf(AtVariant(s, v))});
  }

  lemma PutLog(h: Holdings, got: Holdings, refs: set<string>, log: Collection, n: nat)
    requires Holds(h, got, refs) && BlockAt(h, AtLog(log, n)).Some? && RefOf(AtLog(log, n)) !in refs
    requires Ready(AtLog(log, n), refs)
    ensures n == |got.logs[log]|
    ensures HoldsAt(h, Put(h, got, AtLog(log, n)), refs + {RefOf(AtLog(log, n))}, AtLog(log, n))
  {
    EntryHolds(h, got, refs, AtLog(log, n));
    hide RefOf, Holds, ListHolds;
    NextItem(h.logs[log], got.logs[log], LogAt(log), refs, n);
  }

  lemma PutHistory(h: Holdings, got: Holdings, refs: set<string>, s: string, n: nat)
    requires Holds(h, got, refs) && BlockAt(h, AtHistory(s, n)).Some? && RefOf(AtHistory(s, n)) !in refs
    requires Ready(AtHistory(s, n), refs)
    ensures n == |HistoryOf(got, s)|
    ensures HoldsAt(h, Put(h, got, AtHistory(s, n)), refs + {RefOf(AtHistory(s, n))}, AtHistory(s, n))
  {
    EntryHolds(h, got, refs, AtHistory(s, n));
    hide RefOf, Holds, ListHolds;
    NextItem(h.superseded[s], HistoryOf(got, s), HistoryAt(s), refs, n);
  }

  lemma PutPeer(h: Holdings, got: Holdings, refs: set<string>, s: string, n: nat)
    requires Holds(h, got, refs) && BlockAt(h, AtPeer(s, n)).Some? && RefOf(AtPeer(s, n)) !in refs
    requires Ready(AtPeer(s, n), refs)
    ensures n == |PeersOf(got, s)| && (s in got.extensions ==> got.extensions[s].Many?)
    ensures HoldsAt(h, Put(h, got, AtPeer(s, n)), refs + {RefOf(AtPeer(s, n))}, AtPeer(s, n))
  {
    PeerThere(h, s, n);
    PeersReady(h, got, refs, s, n);
    hide *;
    NextItem(h.extensions[s].peers, PeersOf(got, s), PeerAt(s), refs, n);
    PeerPlaced(h, got, refs, s, n);
  }

  lemma PeerThere(h: Holdings, s: string, n: nat)
    requires BlockAt(h, AtPeer(s, n)).Some?
    ensures s in h.extensions && h.extensions[s].Many? && n < |h.extensions[s].peers|
  {
  }

  lemma PeersReady(h: Holdings, got: Holdings, refs: set<string>, s: string, n: nat)
    requires Holds(h, got, refs) && s in h.extensions && h.extensions[s].Many? && n < |h.extensions[s].peers|
    requires RefOf(AtPeer(s, n)) !in refs && Ready(AtPeer(s, n), refs)
    ensures ListHolds(h.extensions[s].peers, PeersOf(got, s), PeerAt(s), refs) && RefOf(PeerAt(s)(n)) !in refs
    ensures s in got.extensions ==> got.extensions[s].Many?
    ensures forall i: nat :: i < n ==> RefOf(PeerAt(s)(i)) in refs
    ensures forall i: nat :: i < |h.extensions[s].peers| ==> LogLocation(PeerAt(s)(i))
    ensures forall i: nat, j: nat :: PeerAt(s)(i) == PeerAt(s)(j) ==> i == j
    ensures got.logs.Keys == LOGS
  {
    EntryHolds(h, got, refs, AtPeer(s, n));
    hide RefOf, ListHolds;
  }

  lemma PeerPlaced(h: Holdings, got: Holdings, refs: set<string>, s: string, n: nat)
    requires BlockAt(h, AtPeer(s, n)).Some? && got.logs.Keys == LOGS
    requires s in h.extensions && h.extensions[s].Many? && n < |h.extensions[s].peers|
    requires s in got.extensions ==> got.extensions[s].Many?
    requires ListHolds(h.extensions[s].peers, PeersOf(got, s) + [h.extensions[s].peers[n]], PeerAt(s),
             refs + {RefOf(PeerAt(s)(n))})
    ensures HoldsAt(h, Put(h, got, AtPeer(s, n)), refs + {RefOf(AtPeer(s, n))}, AtPeer(s, n))
  {
    hide RefOf, ListHolds;
  }

  /** Putting a block that is next keeps what is shown, with its reference read. */
  lemma PutHolds(h: Holdings, got: Holdings, refs: set<string>, l: Location)
    requires Holds(h, got, refs) && BlockAt(h, l).Some? && LogLocation(l) && RefOf(l) !in refs && Ready(l, refs)
    ensures Holds(h, Put(h, got, l), refs + {RefOf(l)})
  {
    PutUntouched(h, got, l);
    hide RefOf, Ready, BlockAt, Put, HoldsAt;
    match l {
      case AtSection(s) => PutSection(h, got, refs, s);
      case AtVariant(s, v) => PutVariant(h, got, refs, s, v);
      case AtLog(log, n) => PutLog(h, got, refs, log, n);
      case AtExtension(s) => PutExtension(h, got, refs, s);
      case AtPeer(s, n) => PutPeer(h, got, refs, s, n);
      case AtHistory(s, n) => PutHistory(h, got, refs, s, n);
    }
    RestHolds(h, got, Put(h, got, l), refs, l);
  }

  // ----- The decoder puts each encoded row's block in its place -----

  lemma TextReadBack(c: Codec, s: string)
    requires c.Faithful()
    ensures ReadText(c, c.dump(Text(s))) == Some(s)
  {
    LeafNests(Text(s));
  }

  lemma VariantReadBack(c: Codec, v: Option<string>)
    requires c.Faithful()
    ensures ReadVariant(c, VariantToken(c, v)) == Some(v)
  {
    LeafNests(if v.Some? then Text(v.value) else Json.Null);
  }

  /** References of the empty histories. */
  ghost function EmptyPaths(h: Holdings): seq<string> {
    SortedKeys(set s | s in h.superseded && h.superseded[s] == [] :: Pointer([Name(History), s]))
  }

  lemma EmptyPath(h: Holdings, k: nat) returns (s: string)
    requires k < |EmptyPaths(h)|
    ensures s in h.superseded && h.superseded[s] == [] && EmptyPaths(h)[k] == Pointer([Name(History), s])
  {
    hide Pointer, Name;
    assert EmptyPaths(h)[k] in EmptyPaths(h);
    s :| s in h.superseded && h.superseded[s] == [] && EmptyPaths(h)[k] == Pointer([Name(History), s]);
  }

  /** No block stands below an empty collection. */
  lemma NoOverlap(h: Holdings, l: Location)
    requires BlockAt(h, l).Some? && LogLocation(l)
    ensures !Overlaps(PathOf(l), EmptyPaths(h))
  {
    hide Pointer, Name, Parts, EmptyPaths, Dec;
    forall k | 0 <= k < |EmptyPaths(h)|
      ensures !(Parts(EmptyPaths(h)[k]).Some? && Parts(EmptyPaths(h)[k]).value <= PathOf(l))
    {
      var s := EmptyPath(h, k);
      PartsOfPointer([Name(History), s]);
      NotBelow(h, l, s);
    }
  }

  lemma NotBelow(h: Holdings, l: Location, s: string)
    requires BlockAt(h, l).Some? && LogLocation(l) && s in h.superseded && h.superseded[s] == []
    ensures !([Name(History), s] <= PathOf(l))
  {
    hide Name, Dec;
    var p := PathOf(l);
    if [Name(History), s] <= p {
      assert p[0] == Name(History) && p[1] == s;
      NameInjective(CollectionOf(l), History);
    }
  }

  lemma PlacesSection(c: Codec, h: Holdings, got: Holdings, l: Location)
    requires BlockAt(h, l).Some? && got.logs.Keys == LOGS
    requires l.AtSection? ==> l.section !in got.sections
    requires l.AtVariant? && l.section in got.sections ==>
             got.sections[l.section].Variants? && l.variant !in got.sections[l.section].peers
    requires l.AtSection? || l.AtVariant?
    ensures PlaceSection(got, PathOf(l), SectionAt(h, l), VariantAt(h, l), OrdinalOf(l), BlockAt(h, l).value)
            == Success(Put(h, got, l))
  {
    hide BlockAt, Name, TextAt;
    assert PathOf(l)[..2] == [Name(Sections), SectionAt(h, l)];
  }

  lemma PlacesExtension(c: Codec, h: Holdings, got: Holdings, l: Location)
    requires BlockAt(h, l).Some? && got.logs.Keys == LOGS
    requires l.AtExtension? || l.AtPeer?
    requires l.AtExtension? ==> l.section !in got.extensions && VariantStated(BlockAt(h, l).value, VariantAt(h, l))
    requires l.AtPeer? ==>
             l.index == |PeersOf(got, l.section)| && (l.section in got.extensions ==> got.extensions[l.section].Many?)
    ensures PlaceExtension(got, PathOf(l), SectionAt(h, l), VariantAt(h, l), OrdinalOf(l),
                           if l.AtExtension? then SingleMode else VariantsMode, BlockAt(h, l).value)
                               == Success(Put(h, got, l))
  {
    hide Name, TextAt, Dec, VariantStated;
    if l.AtPeer? {
      var peer := h.extensions[l.section].peers[l.index];
      assert peer == Peer(VariantAt(h, l), BlockAt(h, l).value);
    }
  }

  lemma PlacesList(c: Codec, h: Holdings, got: Holdings, l: Location)
    requires BlockAt(h, l).Some? && got.logs.Keys == LOGS
    ensures l.AtLog? && l.index == |got.logs[l.log]| ==>
              PlaceLog(got, l.log, PathOf(l), VariantAt(h, l), OrdinalOf(l), BlockAt(h, l).value)
                  == Success(Put(h, got, l))
    ensures l.AtHistory? && l.index == |HistoryOf(got, l.section)| ==>
              PlaceHistory(got, PathOf(l), SectionAt(h, l), VariantAt(h, l), OrdinalOf(l), BlockAt(h, l).value)
                  == Success(Put(h, got, l))
  {
    hide Name, Dec;
  }

  lemma StatedVariant(host: Host, h: Holdings, l: Location)
    requires BlockAt(h, l).Some? && l.AtExtension? && BlockValid(host, SectionAt(h, l), BlockAt(h, l).value)
    ensures VariantStated(BlockAt(h, l).value, VariantAt(h, l))
  {
  }

  /** What a row of a location is dispatched to. */
  function Dispatch(h: Holdings, got: Holdings, l: Location, b: Block): Result<Holdings, Refusal>
    requires l.AtLog? ==> l.log in got.logs
  {
    match l
    case AtSection(_) => PlaceSection(got, PathOf(l), SectionAt(h, l), VariantAt(h, l), OrdinalOf(l), b)
    case AtVariant(_, _) => PlaceSection(got, PathOf(l), SectionAt(h, l), VariantAt(h, l), OrdinalOf(l), b)
    case AtLog(log, _) => PlaceLog(got, log, PathOf(l), VariantAt(h, l), OrdinalOf(l), b)
    case AtExtension(_) => PlaceExtension(got, PathOf(l), SectionAt(h, l), VariantAt(h, l), OrdinalOf(l), SingleMode, b)
    case AtPeer(_, _) => PlaceExtension(got, PathOf(l), SectionAt(h, l), VariantAt(h, l), OrdinalOf(l), VariantsMode, b)
    case AtHistory(_, _) => PlaceHistory(got, PathOf(l), SectionAt(h, l), VariantAt(h, l), OrdinalOf(l), b)
  }

  lemma ByCollection(h: Holdings, got: Holdings, l: Location, b: Block)
    requires LogLocation(l) && got.logs.Keys == LOGS
    ensures PlaceBy(got, CollectionOf(l), PathOf(l), SectionAt(h, l), VariantAt(h, l), OrdinalOf(l), ModeOf(l), b)
            == Dispatch(h, got, l, b)
  {
    hide PathOf, SectionAt, VariantAt, OrdinalOf, PlaceSection, PlaceExtension, PlaceLog, PlaceHistory;
  }

  lemma HistoryOnly(l: Location)
    requires LogLocation(l)
    ensures l.AtHistory? <==> CollectionOf(l) == History
    ensures CollectionOf(l) != Extensions ==> ModeOf(l) == NoMode
  {
  }

  lemma Dispatched(c: Codec, h: Holdings, got: Holdings, l: Location, b: Block)
    requires c.Faithful() && BlockAt(h, l).Some? && LogLocation(l) && got.logs.Keys == LOGS
    ensures Place(c, got, RowAt(c, h, l), b, EmptyPaths(h)) == Dispatch(h, got, l, b)
  {
    TextReadBack(c, SectionAt(h, l));
    VariantReadBack(c, VariantAt(h, l));
    PartsOfPointer(PathOf(l));
    NoOverlap(h, l);
    HistoryOnly(l);
    ByCollection(h, got, l, b);
    hide BlockAt, Pointer, Parts, PathOf, SectionAt, VariantAt, OrdinalOf, Overlaps, EmptyPaths, ReadText, ReadVariant;
    hide VariantToken;
    hide PlaceBy, Dispatch, CollectionOf;
  }

  /** The row of a location that is next puts the block where the model has it. */
  lemma Places(host: Host, h: Holdings, got: Holdings, refs: set<string>, l: Location)
    requires host.codec.Faithful() && Holds(h, got, refs) && BlockAt(h, l).Some? && LogLocation(l)
    requires RefOf(l) !in refs && Ready(l, refs) && BlockValid(host, SectionAt(h, l), BlockAt(h, l).value)
    ensures Place(host.codec, got, RowAt(host.codec, h, l), BlockAt(h, l).value, EmptyPaths(h))
            == Success(Put(h, got, l))
  {
    var c := host.codec;
    assert got.logs.Keys == LOGS;
    Dispatched(c, h, got, l, BlockAt(h, l).value);
    hide Holds, BlockAt, Put, PathOf, SectionAt, VariantAt, OrdinalOf, EmptyPaths, Ready, Place, RefOf, RowAt;
    hide PlaceSection, PlaceExtension, PlaceLog, PlaceHistory, BlockValid;
    match l {
      case AtSection(s) =>
        PutSection(h, got, refs, s);
        PlacesSection(c, h, got, l);
      case AtVariant(s, v) =>
        PutVariant(h, got, refs, s, v);
        PlacesSection(c, h, got, l);
      case AtLog(log, n) =>
        PutLog(h, got, refs, log, n);
        PlacesList(c, h, got, l);
      case AtExtension(s) =>
        PutExtension(h, got, refs, s);
        StatedVariant(host, h, l);
        PlacesExtension(c, h, got, l);
      case AtPeer(s, n) =>
        PutPeer(h, got, refs, s, n);
        PlacesExtension(c, h, got, l);
      case AtHistory(s, n) =>
        PutHistory(h, got, refs, s, n);
        PlacesList(c, h, got, l);
    }
  }

  // ----- Sorting -----

  lemma {:induction false} LaterOrdinal(p: seq<int>, x: int, y: int, r: seq<int>, s: seq<int>)
    requires y < x
    ensures !UnitsAtMost(p + [x] + r, p + [y] + s)
  {
    if p == [] {
      assert ([] + [x] + r)[0] == x && ([] + [y] + s)[0] == y;
    } else {
      assert (p + [x] + r)[1..] == p[1..] + [x] + r && (p + [y] + s)[1..] == p[1..] + [y] + s;
      LaterOrdinal(p[1..], x, y, r, s);
    }
  }

  predicate RowsSorted(c: Codec, rows: seq<BlockRow>) {
    forall i, j :: 0 <= i < j < |rows| ==> NotAfter(c, rows[i], rows[j])
  }

  lemma NotAfterTotal(c: Codec, a: BlockRow, b: BlockRow)
    requires OrderKey(c, a).Some? && OrderKey(c, b).Some?
    ensures NotAfter(c, a, b) || NotAfter(c, b, a)
  {
    hide OrderKey;
    UnitsTotal(OrderKey(c, a).value, OrderKey(c, b).value);
  }

  lemma NotAfterTransitive(c: Codec, a: BlockRow, b: BlockRow, d: BlockRow)
    requires NotAfter(c, a, b) && NotAfter(c, b, d)
    ensures NotAfter(c, a, d)
  {
    hide OrderKey;
    UnitsTransitive(OrderKey(c, a).value, OrderKey(c, b).value, OrderKey(c, d).value);
  }

  lemma {:induction false} InsertSorts(c: Codec, row: BlockRow, rows: seq<BlockRow>)
    requires RowsSorted(c, rows) && OrderKey(c, row).Some? && Orderable(c, rows)
    ensures RowsSorted(c, InsertRow(c, row, rows))
  {
    hide NotAfter, OrderKey;
    if rows != [] {
      NotAfterTotal(c, row, rows[0]);
      if NotAfter(c, row, rows[0]) {
        forall j | 0 <= j < |rows|
          ensures NotAfter(c, row, rows[j])
        {
          if j > 0 {
            NotAfterTransitive(c, row, rows[0], rows[j]);
          }
        }
      } else {
        InsertSorts(c, row, rows[1..]);
        InsertKeeps(c, row, rows[1..]);
        var rest := InsertRow(c, row, rows[1..]);
        forall j | 0 <= j < |rest|
          ensures NotAfter(c, rows[0], rest[j])
        {
          assert rest[j] in multiset(rest);
        }
      }
    }
  }

  lemma {:induction false} SortSorts(c: Codec, rows: seq<BlockRow>)
    requires Orderable(c, rows)
    ensures RowsSorted(c, SortRows(c, rows))
  {
    hide OrderKey, InsertRow, NotAfter;
    if rows != [] {
      var rest := rows[..|rows| - 1];
      SortSorts(c, rest);
      SortKeepsRows(c, rest);
      forall k | 0 <= k < |SortRows(c, rest)|
        ensures OrderKey(c, SortRows(c, rest)[k]).Some?
      {
        assert SortRows(c, rest)[k] in multiset(rest);
      }
      InsertSorts(c, rows[|rows| - 1], SortRows(c, rest));
    }
  }

  /** Two places of one list. */
  predicate SameList(a: Location, b: Location) {
    || (a.AtLog? && b.AtLog? && a.log == b.log)
    || (a.AtPeer? && b.AtPeer? && a.section == b.section)
    || (a.AtHistory? && b.AtHistory? && a.section == b.section)
  }

  lemma KeyOfRow(c: Codec, h: Holdings, l: Location)
    requires c.Faithful() && LogLocation(l)
    ensures var key := OrderKey(c, RowAt(c, h, l));
            && key.Some?
            && (l.AtLog? || l.AtPeer? || l.AtHistory? ==>
                  key.value == GroupKey(CollectionOf(l), SectionAt(h, l)) + [l.index] + Units(RefOf(l)))
  {
    TextReadBack(c, SectionAt(h, l));
    if l.AtLog? || l.AtPeer? || l.AtHistory? {
      DecIsNumeral(l.index);
      assert OrdinalKey(Dec(l.index)) == Some(l.index as int);
    }
    hide RefOf, SectionAt, Units, Dec, GroupKey, ReadText;
  }

  /** In sorted rows, an earlier item of a list comes first. */
  lemma EarlierFirst(c: Codec, h: Holdings, a: Location, b: Location)
    requires c.Faithful() && LogLocation(a) && LogLocation(b) && SameList(a, b) && a.index < b.index
    ensures !NotAfter(c, RowAt(c, h, b), RowAt(c, h, a))
  {
    KeyOfRow(c, h, a);
    KeyOfRow(c, h, b);
    assert GroupKey(CollectionOf(a), SectionAt(h, a)) == GroupKey(CollectionOf(b), SectionAt(h, b));
    hide RefOf, SectionAt, Units, GroupKey, OrderKey, RowAt, UnitsAtMost;
    LaterOrdinal(GroupKey(CollectionOf(a), SectionAt(h, a)), b.index, a.index, Units(RefOf(b)), Units(RefOf(a)));
  }

  // ----- Permuted tables -----

  lemma {:induction false} DistinctCount<T>(s: seq<T>, x: T)
    requires forall i, j :: 0 <= i < j < |s| ==> s[i] != s[j]
    ensures multiset(s)[x] <= 1
  {
    if s != [] {
      var rest := s[..|s| - 1];
      DistinctCount(rest, x);
      assert s == rest + [s[|s| - 1]];
      if s[|s| - 1] == x {
        assert x !in rest;
      }
    }
  }

  lemma RepeatedCount<T>(s: seq<T>, i: nat, j: nat)
    requires i < j < |s| && s[i] == s[j]
    ensures multiset(s)[s[i]] >= 2
  {
    assert s == s[..j] + [s[j]] + s[j + 1..];
    assert s[i] in s[..j];
    assert multiset(s) == multiset(s[..j]) + multiset([s[j]]) + multiset(s[j + 1..]);
  }

  /** A permutation of a list without repetitions has none. */
  lemma PermutedDistinct<T>(a: seq<T>, b: seq<T>)
    requires multiset(a) == multiset(b) && forall i, j :: 0 <= i < j < |b| ==> b[i] != b[j]
    ensures forall i, j :: 0 <= i < j < |a| ==> a[i] != a[j]
    ensures forall x :: x in a <==> x in b
  {
    forall i, j | 0 <= i < j < |a|
      ensures a[i] != a[j]
    {
      if a[i] == a[j] {
        RepeatedCount(a, i, j);
        DistinctCount(b, a[i]);
      }
    }
    assert forall x :: x in a <==> x in multiset(a);
    assert forall x :: x in b <==> x in multiset(b);
  }

  lemma {:induction false} BlockTableAt(c: Codec, h: Holdings, ls: seq<Location>)
    ensures |BlockTable(c, h, ls)| == |ls|
            && forall k :: 0 <= k < |ls| ==> BlockTable(c, h, ls)[k] == RowAt(c, h, ls[k])
  {
    hide RowAt;
    if ls != [] {
      BlockTableAt(c, h, ls[..|ls| - 1]);
    }
  }

  /** A row of the model's block table. */
  predicate IsRowOf(c: Codec, h: Holdings, row: BlockRow, l: Location) {
    BlockAt(h, l).Some? && LogLocation(l) && row == RowAt(c, h, l)
  }

  ghost predicate AllRows(c: Codec, h: Holdings, rows: seq<BlockRow>) {
    forall row :: row in rows ==> exists l :: IsRowOf(c, h, row, l)
  }

  predicate DistinctRefs(rows: seq<BlockRow>) {
    forall j, k :: 0 <= j < k < |rows| ==> rows[j].ref != rows[k].ref
  }

  ghost predicate AllThere(c: Codec, h: Holdings, rows: seq<BlockRow>) {
    forall l :: BlockAt(h, l).Some? && LogLocation(l) ==> RowAt(c, h, l) in rows
  }

  /** Every block of the model has its row, once. */
  ghost predicate Covers(c: Codec, h: Holdings, rows: seq<BlockRow>) {
    AllRows(c, h, rows) && DistinctRefs(rows) && AllThere(c, h, rows)
  }

  lemma TableCovers(c: Codec, h: Holdings, ls: seq<Location>)
    requires Lists(h, ls)
    ensures Covers(c, h, BlockTable(c, h, ls))
  {
    BlockTableAt(c, h, ls);
    var table := BlockTable(c, h, ls);
    hide BlockTable, BlockAt, RefOf;
    forall j, k | 0 <= j < k < |table|
      ensures table[j].ref != table[k].ref
    {
      if RefOf(ls[j]) == RefOf(ls[k]) {
        RefInjective(ls[j], ls[k]);
      }
    }
    hide RowAt;
    forall row | row in table
      ensures exists l :: IsRowOf(c, h, row, l)
    {
      var k :| 0 <= k < |table| && table[k] == row;
      assert IsRowOf(c, h, table[k], ls[k]);
    }
    forall l | BlockAt(h, l).Some? && LogLocation(l)
      ensures RowAt(c, h, l) in table
    {
      var k :| 0 <= k < |ls| && ls[k] == l;
      assert table[k] in table;
    }
  }

  /** Covering does not depend on the order of the rows. */
  lemma PermutedCovers(c: Codec, h: Holdings, table: seq<BlockRow>, rows: seq<BlockRow>)
    requires Covers(c, h, table) && multiset(rows) == multiset(table)
    ensures Covers(c, h, rows)
  {
    hide BlockAt, RefOf, RowAt, IsRowOf, LogLocation;
    DistinctRows(table);
    PermutedDistinct(rows, table);
    forall j, k | 0 <= j < k < |rows|
      ensures rows[j].ref != rows[k].ref
    {
      assert rows[j] in table && rows[k] in table;
    }
  }

  lemma DistinctRows(rows: seq<BlockRow>)
    requires DistinctRefs(rows)
    ensures forall j, k :: 0 <= j < k < |rows| ==> rows[j] != rows[k]
  {
  }

  // ----- Reading the blocks back -----

  /** Grouping a permuted table permutes the group. */
  lemma GroupPermuted(values: seq<ValueRow>, table: seq<ValueRow>, ref: string, scope: Scope)
    requires multiset(values) == multiset(table)
    ensures multiset(RowsOf(values, ref, scope)) == multiset(RowsOf(table, ref, scope))
  {
    hide RowsOf;
    forall row: Row
      ensures multiset(RowsOf(values, ref, scope))[row] == multiset(RowsOf(table, ref, scope))[row]
    {
      RowsOfCount(values, ref, scope, row);
      RowsOfCount(table, ref, scope, row);
    }
  }

  /** No number is negative zero, and every number is finite. */
  predicate PlainMembers(m: Members) {
    Storable(Object(m)) && Normal(Object(m)) == Object(m)
  }

  predicate PlainBlock(b: Block) {
    PlainMembers(b.annotation) && PlainMembers(b.meta) && PlainMembers(b.content) && PlainMembers(b.extra)
  }

  ghost predicate PlainHoldings(h: Holdings) {
    forall l :: BlockAt(h, l).Some? ==> PlainBlock(BlockAt(h, l).value)
  }

  lemma PlainScope(b: Block, scope: Scope)
    requires PlainBlock(b)
    ensures PlainMembers(ScopeOf(b, scope))
  {
    if scope == UnknownScope {
      assert Normal(Object(map[])).members == map[];
    }
    hide Storable, Normal;
  }

  /** A scope's rows, in any order, read back as the members they flatten. */
  lemma ScopeReadBack(c: Codec, h: Holdings, ls: seq<Location>, values: seq<ValueRow>, l: Location, scope: Scope)
    requires c.Faithful() && Lists(h, ls) && multiset(values) == multiset(ValueTable(c, h, ls))
    requires BlockAt(h, l).Some? && LogLocation(l) && scope != UnknownScope && PlainBlock(BlockAt(h, l).value)
    ensures ReadScope(c, values, RefOf(l), scope) == Some(ScopeOf(BlockAt(h, l).value, scope))
  {
    PlainScope(BlockAt(h, l).value, scope);
    hide RowsOf, ValueTable, Flatten, BlockAt, RefOf, Unflatten, ScopeOf, Storable, Normal, PlainBlock;
    RowsOfTable(c, h, ls, l, scope);
    GroupPermuted(values, ValueTable(c, h, ls), RefOf(l), scope);
    hide Lists;
    UnflattenFlatten(c, RowsOf(values, RefOf(l), scope), Object(ScopeOf(BlockAt(h, l).value, scope)));
  }

  /** What the prose table says of a block. */
  ghost predicate ProseAgrees(h: Holdings, prose: map<string, string>) {
    forall l :: BlockAt(h, l).Some? && LogLocation(l) ==>
      BlockAt(h, l).value.prose == if RefOf(l) in prose then Some(prose[RefOf(l)]) else None
  }

  lemma BlockReadBack(host: Host, h: Holdings, ls: seq<Location>, values: seq<ValueRow>, prose: map<string, string>,
      l: Location)
    requires host.codec.Faithful() && Lists(h, ls) && multiset(values) == multiset(ValueTable(host.codec, h, ls))
    requires BlockAt(h, l).Some? && LogLocation(l) && ProseAgrees(h, prose)
    requires BlockValid(host, SectionAt(h, l), BlockAt(h, l).value)
    requires PlainBlock(BlockAt(h, l).value)
    ensures ReadBlock(host.codec, values, prose, RefOf(l)) == BlockAt(h, l)
  {
    hide BlockAt, RefOf, ReadScope, ValueTable, Lists, SectionAt, PlainBlock, StorableBlock;
    ScopeReadBack(host.codec, h, ls, values, l, Annotation);
    ScopeReadBack(host.codec, h, ls, values, l, Meta);
    ScopeReadBack(host.codec, h, ls, values, l, Content);
    ScopeReadBack(host.codec, h, ls, values, l, Rest);
  }

  // ----- Prose -----

  /** Rows that read as prose, one a block. */
  ghost predicate ProseRows(c: Codec, rows: seq<ProseRow>) {
    && (forall k :: 0 <= k < |rows| ==> rows[k].ref == rows[k].block + "/prose" && ReadText(c, rows[k].token).Some?)
    && (forall j, k :: 0 <= j < k < |rows| ==> rows[j].block != rows[k].block)
  }

  lemma {:induction false} ProseRead(c: Codec, rows: seq<ProseRow>)
    requires ProseRows(c, rows)
    ensures ReadProse(c, rows).Some? && forall k :: 0 <= k < |rows| ==> ReadText(c, rows[k].token).Some?
    ensures var prose := ReadProse(c, rows).value;
            && (forall ref :: ref in prose ==> exists k :: 0 <= k < |rows| && rows[k].block == ref)
            && (forall k :: 0 <= k < |rows| ==>
                rows[k].block in prose && prose[rows[k].block] == ReadText(c, rows[k].token).value)
  {
    hide ReadText;
    if rows != [] {
      var rest := rows[..|rows| - 1];
      ProseRead(c, rest);
      assert forall k :: 0 <= k < |rest| ==> rest[k] == rows[k];
    }
  }

  lemma ProseTableRows(c: Codec, h: Holdings, ls: seq<Location>)
    requires c.Faithful() && Lists(h, ls)
    ensures var table, located := ProseTable(c, h, ls), WithProse(h, ls);
            && |table| == |located|
                && (forall k :: 0 <= k < |located| ==>
                HasProse(h, located[k]) && LogLocation(located[k]) && table[k] == ProseRowAt(c, h, located[k]))
            && ProseRows(c, table)
  {
    ProseListed(h, ls);
    var table, located := ProseTable(c, h, ls), WithProse(h, ls);
    hide WithProse, BlockAt, RefOf, ReadText;
    forall k | 0 <= k < |located|
      ensures HasProse(h, located[k]) && LogLocation(located[k])
      ensures ReadText(c, ProseRowAt(c, h, located[k]).token).Some?
    {
      assert located[k] in located;
      TextReadBack(c, BlockAt(h, located[k]).value.prose.value);
    }
    forall j, k | 0 <= j < k < |table|
      ensures table[j].block != table[k].block
    {
      assert located[j] in located && located[k] in located;
      if RefOf(located[j]) == RefOf(located[k]) {
        RefInjective(located[j], located[k]);
      }
    }
  }

  lemma PermutedProse(c: Codec, table: seq<ProseRow>, rows: seq<ProseRow>)
    requires ProseRows(c, table) && multiset(rows) == multiset(table)
    ensures ProseRows(c, rows) && forall row :: row in rows <==> row in table
  {
    hide ReadText;
    PermutedDistinct(rows, table);
    forall k | 0 <= k < |rows|
      ensures rows[k].ref == rows[k].block + "/prose" && ReadText(c, rows[k].token).Some?
    {
      assert rows[k] in table;
    }
    forall j, k | 0 <= j < k < |rows|
      ensures rows[j].block != rows[k].block
    {
      assert rows[j] in table && rows[k] in table;
    }
  }

  /** The prose table, in any order, gives every block its prose and nothing else. */
  lemma ProseReadBack(c: Codec, h: Holdings, ls: seq<Location>, rows: seq<ProseRow>)
    requires c.Faithful() && Lists(h, ls) && multiset(rows) == multiset(ProseTable(c, h, ls))
    ensures ReadProse(c, rows).Some? && ProseAgrees(h, ReadProse(c, rows).value)
    ensures forall ref :: ref in ReadProse(c, rows).value ==> Referenced(h, ref)
  {
    hide *;
    ProseTableRows(c, h, ls);
    PermutedProse(c, ProseTable(c, h, ls), rows);
    ProseRead(c, rows);
    ProseStated(c, h, ls, rows, ReadProse(c, rows).value);
  }

  /** The reference of a block of the model. */
  ghost predicate Referenced(h: Holdings, ref: string) {
    exists l :: BlockAt(h, l).Some? && LogLocation(l) && RefOf(l) == ref
  }

  lemma ProseStated(c: Codec, h: Holdings, ls: seq<Location>, rows: seq<ProseRow>, prose: map<string, string>)
    requires c.Faithful() && Lists(h, ls) && forall row :: row in rows <==> row in ProseTable(c, h, ls)
    requires forall k :: 0 <= k < |rows| ==> ReadText(c, rows[k].token).Some?
    requires forall ref :: ref in prose ==> exists k :: 0 <= k < |rows| && rows[k].block == ref
    requires forall k :: 0 <= k < |rows| ==>
             rows[k].block in prose && prose[rows[k].block] == ReadText(c, rows[k].token).value
    ensures ProseAgrees(h, prose) && forall ref :: ref in prose ==> Referenced(h, ref)
  {
    hide ProseTable, WithProse, BlockAt, RefOf, ReadText, Lists;
    forall ref | ref in prose
      ensures Referenced(h, ref)
    {
      var k :| 0 <= k < |rows| && rows[k].block == ref;
      var l := ProseLocation(c, h, ls, rows, k);
    }
    forall l | BlockAt(h, l).Some? && LogLocation(l)
      ensures BlockAt(h, l).value.prose == if RefOf(l) in prose then Some(prose[RefOf(l)]) else None
    {
      ProseOfBlock(c, h, ls, rows, prose, l);
    }
  }

  lemma ProseLocation(c: Codec, h: Holdings, ls: seq<Location>, rows: seq<ProseRow>, k: nat) returns (l: Location)
    requires c.Faithful() && Lists(h, ls) && k < |rows| && forall row :: row in rows <==> row in ProseTable(c, h, ls)
    ensures l in WithProse(h, ls) && HasProse(h, l) && LogLocation(l) && rows[k] == ProseRowAt(c, h, l)
  {
    ProseTableRows(c, h, ls);
    var table := ProseTable(c, h, ls);
    hide ProseTable, WithProse, RefOf;
    assert rows[k] in table;
    var a :| 0 <= a < |table| && table[a] == rows[k];
    l := WithProse(h, ls)[a];
  }

  lemma ProseOfBlock(c: Codec, h: Holdings, ls: seq<Location>, rows: seq<ProseRow>, prose: map<string, string>,
      l: Location)
    requires c.Faithful() && Lists(h, ls) && BlockAt(h, l).Some? && LogLocation(l)
    requires forall row :: row in rows <==> row in ProseTable(c, h, ls)
    requires forall ref :: ref in prose ==> exists k :: 0 <= k < |rows| && rows[k].block == ref
    requires forall k :: 0 <= k < |rows| ==>
             rows[k].block in prose && ReadText(c, rows[k].token) == Some(prose[rows[k].block])
    ensures BlockAt(h, l).value.prose == if RefOf(l) in prose then Some(prose[RefOf(l)]) else None
  {
    hide *;
    if HasProse(h, l) {
      ProseThere(c, h, ls, rows, prose, l);
    } else if RefOf(l) in prose {
      var k :| 0 <= k < |rows| && rows[k].block == RefOf(l);
      var other := ProseLocation(c, h, ls, rows, k);
      ProseRowNames(c, h, other);
      RefInjective(other, l);
    } else {
      NoProseThere(h, l);
    }
  }

  lemma ProseThere(c: Codec, h: Holdings, ls: seq<Location>, rows: seq<ProseRow>, prose: map<string, string>,
      l: Location)
    requires c.Faithful() && Lists(h, ls) && HasProse(h, l)
    requires forall row :: row in rows <==> row in ProseTable(c, h, ls)
    requires forall k :: 0 <= k < |rows| ==>
             rows[k].block in prose && ReadText(c, rows[k].token) == Some(prose[rows[k].block])
    ensures BlockAt(h, l).Some? && RefOf(l) in prose && BlockAt(h, l).value.prose == Some(prose[RefOf(l)])
  {
    ProseTableAt(c, h, ls);
    ProseListed(h, ls);
    var table, located := ProseTable(c, h, ls), WithProse(h, ls);
    hide ProseTable, WithProse, RefOf, ReadText, BlockAt, Codec.Faithful;
    TextReadBack(c, BlockAt(h, l).value.prose.value);
    assert l in located;
    var a :| 0 <= a < |located| && located[a] == l;
    assert table[a] in rows;
    var k :| 0 <= k < |rows| && rows[k] == table[a];
  }

  lemma ProseRowNames(c: Codec, h: Holdings, l: Location)
    requires HasProse(h, l)
    ensures ProseRowAt(c, h, l).block == RefOf(l)
  {
    hide RefOf, BlockAt;
  }

  lemma NoProseThere(h: Holdings, l: Location)
    requires BlockAt(h, l).Some? && !HasProse(h, l)
    ensures BlockAt(h, l).value.prose == None
  {
    hide BlockAt;
  }

  // ----- The loop over sorted rows -----

  function RefsOf(rows: seq<BlockRow>, n: nat): set<string>
    requires n <= |rows|
  {
    set k | 0 <= k < n :: rows[k].ref
  }

  lemma RefsMore(rows: seq<BlockRow>, n: nat)
    requires n < |rows|
    ensures RefsOf(rows, n + 1) == RefsOf(rows, n) + {rows[n].ref}
    ensures rows[n].ref in RefsOf(rows, n) <==> exists k :: 0 <= k < n && rows[k].ref == rows[n].ref
  {
  }

  /** In sorted rows, every earlier item of the row's list has been read. */
  lemma RowIsReady(c: Codec, h: Holdings, rows: seq<BlockRow>, n: nat, l: Location)
    requires c.Faithful() && Covers(c, h, rows) && RowsSorted(c, rows) && n < |rows| && IsRowOf(c, h, rows[n], l)
    ensures Ready(l, RefsOf(rows, n))
  {
    hide Covers, RowsSorted, IsRowOf, RefsOf, RefOf;
    if l.AtLog? {
      forall i: nat | i < l.index
        ensures RefOf(LogAt(l.log)(i)) in RefsOf(rows, n)
      {
        EarlierRead(c, h, rows, n, AtLog(l.log, i), l);
      }
    } else if l.AtPeer? {
      forall i: nat | i < l.index
        ensures RefOf(PeerAt(l.section)(i)) in RefsOf(rows, n)
      {
        EarlierRead(c, h, rows, n, AtPeer(l.section, i), l);
      }
    } else if l.AtHistory? {
      forall i: nat | i < l.index
        ensures RefOf(HistoryAt(l.section)(i)) in RefsOf(rows, n)
      {
        EarlierRead(c, h, rows, n, AtHistory(l.section, i), l);
      }
    }
  }

  lemma EarlierRead(c: Codec, h: Holdings, rows: seq<BlockRow>, n: nat, a: Location, l: Location)
    requires c.Faithful() && Covers(c, h, rows) && RowsSorted(c, rows) && n < |rows| && IsRowOf(c, h, rows[n], l)
    requires SameList(a, l) && a.index < l.index
    ensures RefOf(a) in RefsOf(rows, n)
  {
    assert BlockAt(h, a).Some? && LogLocation(a);
    EarlierFirst(c, h, a, l);
    hide BlockAt, NotAfter, RefOf;
    assert RowAt(c, h, a) in rows;
    var k :| 0 <= k < |rows| && rows[k] == RowAt(c, h, a);
    assert rows[k].ref == RefOf(a);
    if k == n {
      RefInjective(a, l);
    }
    OneBeforeOther(c, rows, n, k);
  }

  lemma OneBeforeOther(c: Codec, rows: seq<BlockRow>, n: nat, k: nat)
    requires RowsSorted(c, rows) && n < |rows| && k < |rows| && !NotAfter(c, rows[n], rows[k])
    ensures k <= n && rows[k].ref in RefsOf(rows, n) + {rows[n].ref}
    ensures k != n ==> rows[k].ref in RefsOf(rows, n)
  {
    hide NotAfter;
  }

  /** After n sorted rows, the holdings show the blocks whose references were read. */
  lemma {:induction false} PlacesAll(host: Host, h: Holdings, t: Tables, ls: seq<Location>, prose: map<string, string>,
      start: Holdings, rows: seq<BlockRow>, n: nat)
    requires host.codec.Faithful() && Lists(h, ls) && multiset(t.values) == multiset(ValueTable(host.codec, h, ls))
    requires ProseAgrees(h, prose) && Covers(host.codec, h, rows) && RowsSorted(host.codec, rows) && n <= |rows|
    requires forall l :: BlockAt(h, l).Some? ==> BlockValid(host, SectionAt(h, l), BlockAt(h, l).value)
    requires PlainHoldings(h)
    requires Holds(h, start, {})
    ensures PlaceRows(host.codec, t, prose, start, EmptyPaths(h), rows, n).Success?
    ensures Holds(h, PlaceRows(host.codec, t, prose, start, EmptyPaths(h), rows, n).value, RefsOf(rows, n))
  {
    hide *;
    var c := host.codec;
    if n == 0 {
      NoneRead(c, t, prose, start, EmptyPaths(h), rows);
    } else {
      PlacesAll(host, h, t, ls, prose, start, rows, n - 1);
      var l := LocationOfRow(c, h, rows, n - 1);
      var got := PlaceRows(c, t, prose, start, EmptyPaths(h), rows, n - 1).value;
      RefsMore(rows, n - 1);
      PlaceOne(host, h, t, ls, prose, rows, n - 1, l, got);
      PlaceNext(c, t, prose, start, EmptyPaths(h), rows, n, BlockAt(h, l).value);
    }
  }

  lemma NoneRead(c: Codec, t: Tables, prose: map<string, string>, start: Holdings, empty: seq<string>,
      rows: seq<BlockRow>)
    ensures PlaceRows(c, t, prose, start, empty, rows, 0) == Success(start) && RefsOf(rows, 0) == {}
  {
  }

  lemma LocationOfRow(c: Codec, h: Holdings, rows: seq<BlockRow>, n: nat) returns (l: Location)
    requires Covers(c, h, rows) && n < |rows|
    ensures IsRowOf(c, h, rows[n], l)
  {
    hide IsRowOf, DistinctRefs, AllThere;
    assert rows[n] in rows;
    l :| IsRowOf(c, h, rows[n], l);
  }

  lemma PlaceNext(c: Codec, t: Tables, prose: map<string, string>, start: Holdings, empty: seq<string>,
      rows: seq<BlockRow>, n: nat, b: Block)
    requires 0 < n <= |rows| && PlaceRows(c, t, prose, start, empty, rows, n - 1).Success?
    requires !(exists k :: 0 <= k < n - 1 && rows[k].ref == rows[n - 1].ref)
    requires ReadBlock(c, t.values, prose, rows[n - 1].ref) == Some(b)
    ensures PlaceRows(c, t, prose, start, empty, rows, n)
            == Place(c, PlaceRows(c, t, prose, start, empty, rows, n - 1).value, rows[n - 1], b, empty)
  {
    hide Place, ReadBlock;
  }

  lemma PlaceOne(host: Host, h: Holdings, t: Tables, ls: seq<Location>, prose: map<string, string>,
      rows: seq<BlockRow>, n: nat, l: Location, got: Holdings)
    requires host.codec.Faithful() && Lists(h, ls) && multiset(t.values) == multiset(ValueTable(host.codec, h, ls))
    requires ProseAgrees(h, prose) && Covers(host.codec, h, rows) && RowsSorted(host.codec, rows) && n < |rows|
    requires forall l :: BlockAt(h, l).Some? ==> BlockValid(host, SectionAt(h, l), BlockAt(h, l).value)
    requires PlainHoldings(h)
    requires IsRowOf(host.codec, h, rows[n], l) && Holds(h, got, RefsOf(rows, n))
    ensures !(exists k :: 0 <= k < n && rows[k].ref == rows[n].ref)
    ensures ReadBlock(host.codec, t.values, prose, rows[n].ref) == BlockAt(h, l) && BlockAt(h, l).Some?
    ensures var placed := Place(host.codec, got, rows[n], BlockAt(h, l).value, EmptyPaths(h));
            placed.Success? && Holds(h, placed.value, RefsOf(rows, n) + {rows[n].ref})
  {
    assert rows[n] == RowAt(host.codec, h, l) && rows[n].ref == RefOf(l) && BlockAt(h, l).Some? && LogLocation(l);
    RowIsReady(host.codec, h, rows, n, l);
    RefsMore(rows, n);
    assert DistinctRefs(rows);
    hide *;
    BlockReadBack(host, h, ls, t.values, prose, l);
    Places(host, h, got, RefsOf(rows, n), l);
    PutHolds(h, got, RefsOf(rows, n), l);
  }

  // ----- Start and end -----

  lemma {:induction false} SortedKeysOrdered(keys: set<string>, i: nat, j: nat)
    requires i < j < |SortedKeys(keys)|
    ensures UnitsAtMost(Units(SortedKeys(keys)[i]), Units(SortedKeys(keys)[j]))
    decreases j
  {
    hide *;
    var sorted := SortedKeys(keys);
    assert sorted[j] in sorted;
    FirstOfSorted(keys, sorted[j]);
    if i > 0 {
      var rest := SortedKeys(keys - {sorted[0]});
      assert rest == sorted[1..];
      SortedKeysOrdered(keys - {sorted[0]}, i - 1, j - 1);
      assert rest[i - 1] == sorted[i] && rest[j - 1] == sorted[j];
    }
  }

  lemma FirstOfSorted(keys: set<string>, x: string)
    requires x in keys
    ensures var sorted := SortedKeys(keys);
            sorted != [] && UnitsAtMost(Units(sorted[0]), Units(x)) && sorted[1..] == SortedKeys(keys - {sorted[0]})
  {
    hide UnitsAtMost, Units;
    HasFirst(keys);
  }

  /** The holdings before any block: empty histories only. */
  ghost function Beginning(h: Holdings): Holdings {
    Vacant().(superseded := map s | s in h.superseded && h.superseded[s] == [] :: [])
  }

  lemma BeginningHolds(h: Holdings)
    requires h.logs.Keys == LOGS
    ensures Holds(h, Beginning(h), {})
  {
    var start := Beginning(h);
    hide RefOf;
    forall s
      ensures SectionHolds(h, start, {}, s)
    {
      if s in h.sections && h.sections[s].Variants? {
        assert Received(s, h.sections[s].peers, {}) == map[];
      }
    }
    forall s
      ensures HistoryHolds(h, start, {}, s)
    {
    }
    forall s
      ensures ExtensionHolds(h, start, {}, s)
    {
    }
  }

  /** What the first n descriptors of empty histories leave. */
  ghost predicate EmptiedTo(h: Holdings, start: Holdings, n: nat)
    requires n <= |EmptyPaths(h)|
  {
    && start.sections == map[] && start.logs == Vacant().logs && start.extensions == map[]
    && (forall s :: s in start.superseded <==> Pointer([Name(History), s]) in EmptyPaths(h)[..n])
    && (forall s :: s in start.superseded ==> start.superseded[s] == [])
  }

  /** The empty descriptors, in order, give the beginning. */
  lemma {:induction false} EmptiesRead(h: Holdings, n: nat)
    requires n <= |EmptyPaths(h)|
    ensures StartEmpty(EmptyPaths(h)[..n]).Some? && EmptiedTo(h, StartEmpty(EmptyPaths(h)[..n]).value, n)
  {
    hide *;
    var paths := EmptyPaths(h);
    if n == 0 {
      assert paths[..0] == [];
      NoneEmptied(h);
    } else {
      EmptiesRead(h, n - 1);
      var s := EmptyPath(h, n - 1);
      EmptyInOrder(h, n - 1);
      var before := StartEmpty(paths[..n - 1]).value;
      OneEmpty(before, if n == 1 then "" else paths[n - 2], s);
      EmptyUnfolds(paths, n);
      EmptiedNext(h, before, n, s);
    }
  }

  lemma NoneEmptied(h: Holdings)
    ensures StartEmpty([]) == Some(Vacant()) && EmptiedTo(h, Vacant(), 0)
  {
    hide Pointer, Name, EmptyPaths;
  }

  lemma EmptyUnfolds(paths: seq<string>, n: nat)
    requires 0 < n <= |paths| && StartEmpty(paths[..n - 1]).Some?
    ensures StartEmpty(paths[..n])
            == AddEmpty(StartEmpty(paths[..n - 1]).value, if n == 1 then "" else paths[n - 2], paths[n - 1])
  {
    hide AddEmpty;
    assert paths[..n][..n - 1] == paths[..n - 1];
  }

  lemma EmptiedNext(h: Holdings, before: Holdings, n: nat, s: string)
    requires 0 < n <= |EmptyPaths(h)| && EmptiedTo(h, before, n - 1)
    requires EmptyPaths(h)[n - 1] == Pointer([Name(History), s])
    ensures EmptiedTo(h, before.(superseded := before.superseded[s := []]), n)
  {
    hide Pointer, Name, EmptyPaths;
    var paths := EmptyPaths(h);
    assert paths[..n] == paths[..n - 1] + [paths[n - 1]];
    forall r: string
      ensures r == s <==> Pointer([Name(History), r]) == paths[n - 1]
    {
      SamePath(r, s);
    }
  }

  lemma SamePath(r: string, s: string)
    ensures Pointer([Name(History), r]) == Pointer([Name(History), s]) <==> r == s
  {
    PointerInjective([Name(History), r], [Name(History), s]);
    assert [Name(History), r][1] == r && [Name(History), s][1] == s;
  }

  lemma EmptyInOrder(h: Holdings, k: nat)
    requires k < |EmptyPaths(h)|
    ensures var previous := if k == 0 then "" else EmptyPaths(h)[k - 1];
            UnitsAtMost(Units(previous), Units(EmptyPaths(h)[k])) && previous != EmptyPaths(h)[k]
  {
    hide *;
    var s := EmptyPath(h, k);
    NotRoot(s);
    if k == 0 {
      RootFirst(EmptyPaths(h)[k]);
    } else {
      EmptyPathsOrdered(h, k - 1, k);
    }
  }

  lemma RootFirst(path: string)
    ensures UnitsAtMost(Units(""), Units(path))
  {
  }

  lemma EmptyPathsOrdered(h: Holdings, i: nat, j: nat)
    requires i < j < |EmptyPaths(h)|
    ensures UnitsAtMost(Units(EmptyPaths(h)[i]), Units(EmptyPaths(h)[j])) && EmptyPaths(h)[i] != EmptyPaths(h)[j]
  {
    hide Units, UnitsAtMost, Pointer, SortedKeys;
    SortedKeysOrdered(set s | s in h.superseded && h.superseded[s] == [] :: Pointer([Name(History), s]), i, j);
  }

  lemma NotRoot(s: string)
    ensures Pointer([Name(History), s]) != ""
  {
    PartsOfPointer([Name(History), s]);
    hide Pointer;
  }

  lemma OneEmpty(h: Holdings, previous: string, s: string)
    requires UnitsAtMost(Units(previous), Units(Pointer([Name(History), s]))) && previous != Pointer([Name(History), s])
    ensures AddEmpty(h, previous, Pointer([Name(History), s])) == Some(h.(superseded := h.superseded[s := []]))
  {
    PartsOfPointer([Name(History), s]);
    if Name(History) == Name(Sections) {
      NameInjective(History, Sections);
    }
    hide Units, UnitsAtMost, Pointer, Parts, Name;
  }

  lemma StartsAtBeginning(h: Holdings)
    ensures StartEmpty(EmptyPaths(h)) == Some(Beginning(h))
  {
    hide *;
    EmptiesRead(h, |EmptyPaths(h)|);
    assert EmptyPaths(h)[..|EmptyPaths(h)|] == EmptyPaths(h);
    EmptiedAll(h, StartEmpty(EmptyPaths(h)).value);
  }

  lemma EmptiedAll(h: Holdings, start: Holdings)
    requires EmptiedTo(h, start, |EmptyPaths(h)|)
    ensures start == Beginning(h)
  {
    assert EmptyPaths(h)[..|EmptyPaths(h)|] == EmptyPaths(h);
    hide Pointer, Name, EmptyPaths;
    forall s
      ensures s in start.superseded <==> s in h.superseded && h.superseded[s] == []
    {
      EmptyListed(h, s);
    }
    assert start.superseded == Beginning(h).superseded;
  }

  lemma EmptyListed(h: Holdings, s: string)
    ensures Pointer([Name(History), s]) in EmptyPaths(h) <==> s in h.superseded && h.superseded[s] == []
  {
    hide Pointer, Name;
    if Pointer([Name(History), s]) in EmptyPaths(h) {
      var r :| r in h.superseded && h.superseded[r] == [] && Pointer([Name(History), s]) == Pointer([Name(History), r]);
      SamePath(r, s);
    }
  }

  /** Every block's reference was read. */
  ghost predicate Complete(h: Holdings, refs: set<string>) {
    forall l :: BlockAt(h, l).Some? && LogLocation(l) ==> RefOf(l) in refs
  }

  lemma RefsComplete(c: Codec, h: Holdings, rows: seq<BlockRow>)
    requires Covers(c, h, rows)
    ensures Complete(h, RefsOf(rows, |rows|))
  {
    hide BlockAt, RefOf;
    forall l | BlockAt(h, l).Some? && LogLocation(l)
      ensures RefOf(l) in RefsOf(rows, |rows|)
    {
      assert RowAt(c, h, l) in rows;
      var k :| 0 <= k < |rows| && rows[k] == RowAt(c, h, l);
      assert rows[k].ref == RefOf(l);
    }
  }

  lemma SectionDone(h: Holdings, got: Holdings, refs: set<string>, s: string)
    requires SectionHolds(h, got, refs, s) && Complete(h, refs)
    requires s in h.sections && h.sections[s].Variants? ==> h.sections[s].peers != map[]
    ensures SameEntry(got.sections, h.sections, s)
  {
    hide RefOf;
    if s in h.sections && h.sections[s].Single? {
      assert BlockAt(h, AtSection(s)).Some?;
    } else if s in h.sections {
      var peers := h.sections[s].peers;
      forall v | v in peers
        ensures RefOf(AtVariant(s, v)) in refs
      {
        assert BlockAt(h, AtVariant(s, v)).Some?;
      }
      assert Received(s, peers, refs) == peers;
    }
  }

  /** A list read to the end is the whole list. */
  lemma ListDone<T>(whole: seq<T>, got: seq<T>, at: nat -> Location, refs: set<string>)
    requires ListHolds(whole, got, at, refs) && forall i: nat :: i < |whole| ==> RefOf(at(i)) in refs
    ensures got == whole
  {
    hide RefOf;
    if |got| < |whole| {
      ListRead(whole, got, at, refs, |got|);
    }
    assert whole[..|whole|] == whole;
  }

  lemma LogDone(h: Holdings, got: Holdings, refs: set<string>, log: Collection)
    requires log in LOGS && LogHolds(h, got, refs, log) && Complete(h, refs)
    ensures got.logs[log] == h.logs[log]
  {
    hide RefOf, ListHolds;
    forall i: nat | i < |h.logs[log]|
      ensures RefOf(LogAt(log)(i)) in refs
    {
      assert BlockAt(h, AtLog(log, i)).Some?;
    }
    ListDone(h.logs[log], got.logs[log], LogAt(log), refs);
  }

  lemma HistoryDone(h: Holdings, got: Holdings, refs: set<string>, s: string)
    requires HistoryHolds(h, got, refs, s) && Complete(h, refs)
    ensures SameEntry(got.superseded, h.superseded, s)
  {
    hide RefOf, ListHolds;
    if s in h.superseded {
      forall i: nat | i < |h.superseded[s]|
        ensures RefOf(HistoryAt(s)(i)) in refs
      {
        assert BlockAt(h, AtHistory(s, i)).Some?;
      }
      ListDone(h.superseded[s], HistoryOf(got, s), HistoryAt(s), refs);
    }
  }

  lemma ExtensionDone(h: Holdings, got: Holdings, refs: set<string>, s: string)
    requires ExtensionHolds(h, got, refs, s) && Complete(h, refs)
    requires s in h.extensions && h.extensions[s].Many? ==> h.extensions[s].peers != []
    ensures SameEntry(got.extensions, h.extensions, s)
  {
    hide RefOf, ListHolds;
    if s in h.extensions && h.extensions[s].One? {
      assert BlockAt(h, AtExtension(s)).Some?;
    } else if s in h.extensions {
      var peers := h.extensions[s].peers;
      forall i: nat | i < |peers|
        ensures RefOf(PeerAt(s)(i)) in refs
      {
        assert BlockAt(h, AtPeer(s, i)).Some?;
      }
      ListDone(peers, PeersOf(got, s), PeerAt(s), refs);
    }
  }

  /** When every reference was read, the holdings are the model's. */
  lemma AllRead(h: Holdings, got: Holdings, refs: set<string>)
    requires Holds(h, got, refs) && Complete(h, refs) && h.logs.Keys == LOGS
    requires forall s :: s in h.sections && h.sections[s].Variants? ==> h.sections[s].peers != map[]
    requires forall s :: s in h.extensions && h.extensions[s].Many? ==> h.extensions[s].peers != []
    ensures got == h
  {
    hide SectionHolds, LogHolds, HistoryHolds, ExtensionHolds, Complete;
    forall s
      ensures SameEntry(got.sections, h.sections, s)
    {
      SectionDone(h, got, refs, s);
    }
    forall log | log in LOGS
      ensures got.logs[log] == h.logs[log]
    {
      LogDone(h, got, refs, log);
    }
    forall s
      ensures SameEntry(got.superseded, h.superseded, s)
    {
      HistoryDone(h, got, refs, s);
    }
    forall s
      ensures SameEntry(got.extensions, h.extensions, s)
    {
      ExtensionDone(h, got, refs, s);
    }
    SameMap(got.sections, h.sections);
    SameMap(got.superseded, h.superseded);
    SameMap(got.extensions, h.extensions);
    assert got.logs == h.logs;
  }

  lemma SameMap<T>(a: map<string, T>, b: map<string, T>)
    requires forall s :: SameEntry(a, b, s)
    ensures a == b
  {
    assert forall s :: s in a || s in b ==> SameEntry(a, b, s);
  }

  // ----- The empty and the outer cell -----

  ghost function EmptyCell(h: Holdings): Json {
    Array(EmptyItems(EmptyPaths(h)))
  }

  lemma {:induction false} ItemsPlain(paths: seq<string>)
    ensures var v := Array(EmptyItems(paths)); Storable(v) && Nests(v, CELL_DEPTH) && Normal(v) == v
    ensures |EmptyItems(paths)| == |paths|
  {
    if paths == [] {
      assert Normal(Array([])).items == [];
    } else {
      var front := EmptyItems(paths[..|paths| - 1]);
      ItemsPlain(paths[..|paths| - 1]);
      ItemPlain(paths[|paths| - 1]);
      hide EmptyItem;
      assert Normal(Array(front)).items == front;
      assert Normal(Array(EmptyItems(paths))).items == EmptyItems(paths);
    }
  }

  lemma ItemPlain(path: string)
    ensures Storable(EmptyItem(path)) && Nests(EmptyItem(path), CELL_DEPTH - 1)
    ensures Normal(EmptyItem(path)) == EmptyItem(path)
  {
    assert Normal(EmptyItem(path)).members == EmptyItem(path).members;
  }

  lemma ItemReads(path: string)
    requires EmptyKind(path) == "array"
    ensures ReadItem(EmptyItem(path)) == Some(path)
  {
    assert |"path"| == 4 && "path"[0] == 'p' && "kind"[0] == 'k';
    hide EmptyKind;
  }

  lemma {:induction false} ItemsRead(paths: seq<string>)
    requires forall k :: 0 <= k < |paths| ==> EmptyKind(paths[k]) == "array"
    ensures ReadItems(EmptyItems(paths)) == Some(paths)
  {
    hide EmptyItem, ReadItem, EmptyKind, Parts;
    if paths != [] {
      var n := |paths| - 1;
      ItemsRead(paths[..n]);
      ItemReads(paths[n]);
      hide ReadItems;
      ItemsNext(EmptyItems(paths[..n]), EmptyItem(paths[n]), paths[..n], paths[n]);
      assert paths == paths[..n] + [paths[n]];
    }
  }

  lemma ItemsNext(items: seq<Json>, item: Json, paths: seq<string>, path: string)
    requires ReadItems(items) == Some(paths) && ReadItem(item) == Some(path)
    ensures ReadItems(items + [item]) == Some(paths + [path])
  {
    assert (items + [item])[..|items|] == items;
    hide ReadItem;
  }

  lemma EmptyReadBack(c: Codec, h: Holdings)
    requires c.Faithful()
    ensures ReadEmpty(c, c.dump(EmptyCell(h))) == Some(EmptyPaths(h))
  {
    ItemsPlain(EmptyPaths(h));
    forall k | 0 <= k < |EmptyPaths(h)|
      ensures EmptyKind(EmptyPaths(h)[k]) == "array"
    {
      var s := EmptyPath(h, k);
      PartsOfPointer([Name(History), s]);
      hide Pointer, Parts, Name;
    }
    hide EmptyPaths, EmptyKind, Storable, Normal, EmptyItems;
    ItemsRead(EmptyPaths(h));
  }

  /** Other members of the model nest one level inside it. */
  lemma ExtraNests(m: Model)
    requires Nests(ModelJson(m), CELL_DEPTH) && m.extra.Keys !! RESERVED
    ensures Nests(Object(m.extra), CELL_DEPTH)
  {
    forall k | k in m.extra
      ensures Nests(m.extra[k], CELL_DEPTH - 1)
    {
      assert k !in RESERVED;
      ExtraInModel(m, k);
    }
  }

  lemma ExtraInModel(m: Model, k: string)
    requires k in m.extra && k !in RESERVED
    ensures k in ModelJson(m).members && ModelJson(m).members[k] == m.extra[k]
  {
    hide SectionsJson, ExtensionsJson, HistoryJson, LogJson;
  }

  lemma ExtraReadBack(c: Codec, m: Model)
    requires c.Faithful() && PlainMembers(m.extra) && Nests(ModelJson(m), CELL_DEPTH) && m.extra.Keys !! RESERVED
    ensures ReadObject(c, c.dump(Object(m.extra))) == Some(m.extra)
  {
    ExtraNests(m);
    hide Nests, Storable, Normal, ModelJson;
  }

  // ----- Round trip -----

  function Stamped(host: Host, m: Model): Model {
    m.(digest := Some(Digest(host, m)))
  }

  /** The tables of a stamped model, its blocks in the order of a listing. */
  ghost function Encoded(host: Host, m: Model, ls: seq<Location>): Tables
    requires TextAt(m.frontmatter, "deal_id").Some? && TextAt(m.frontmatter, "deal_name").Some? && Lists(m.holdings, ls)
  {
    var c := host.codec;
    Tables([DocumentRow(VariantToken(c, m.generatedAt), VariantToken(c, m.generator), Digest(host, m),
                        c.dump(Text(TextAt(m.frontmatter, "deal_id").value)),
                            c.dump(Text(TextAt(m.frontmatter, "deal_name").value)),
                        c.dump(Object(m.extra)), c.dump(EmptyCell(m.holdings)))],
           Flatten(c, Object(m.frontmatter), ""), BlockTable(c, m.holdings, ls), ValueTable(c, m.holdings, ls),
           ProseTable(c, m.holdings, ls), Digest(host, m))
  }

  /** The same document row, and the other tables in any order. */
  predicate Shuffled(a: Tables, b: Tables) {
    && a.document == b.document && a.manifestDigest == b.manifestDigest
    && multiset(a.frontmatter) == multiset(b.frontmatter) && multiset(a.blocks) == multiset(b.blocks)
    && multiset(a.values) == multiset(b.values) && multiset(a.prose) == multiset(b.prose)
  }

  lemma {:induction false} ValueRefs(c: Codec, h: Holdings, ls: seq<Location>, v: ValueRow)
    requires forall k :: 0 <= k < |ls| ==> BlockAt(h, ls[k]).Some?
    requires v in ValueTable(c, h, ls)
    ensures v.scope != UnknownScope && exists k :: 0 <= k < |ls| && v.ref == RefOf(ls[k])
  {
    hide RefOf, Flatten;
    var rest, last := ls[..|ls| - 1], ls[|ls| - 1];
    if v in ValueTable(c, h, rest) {
      ValueRefs(c, h, rest, v);
    }
  }

  /** All value rows have a known scope and all rows are used. */
  lemma RowsUsed(c: Codec, h: Holdings, ls: seq<Location>, t: Tables, prose: map<string, string>)
    requires Lists(h, ls) && multiset(t.values) == multiset(ValueTable(c, h, ls)) && Covers(c, h, t.blocks)
    requires forall ref :: ref in prose ==> Referenced(h, ref)
    ensures ScopesKnown(t) && AllUsed(t, prose)
  {
    hide RefOf, BlockAt, ValueTable, RowAt, SectionAt, HasRow;
    forall k | 0 <= k < |t.values|
      ensures t.values[k].scope != UnknownScope
      ensures HasRow(t.blocks, t.values[k].ref)
    {
      assert t.values[k] in multiset(t.values);
      ValueRefs(c, h, ls, t.values[k]);
      var a :| 0 <= a < |ls| && t.values[k].ref == RefOf(ls[a]);
      RefHasRow(c, h, t.blocks, ls[a]);
    }
    forall ref | ref in prose
      ensures HasRow(t.blocks, ref)
    {
      var l :| BlockAt(h, l).Some? && LogLocation(l) && RefOf(l) == ref;
      RefHasRow(c, h, t.blocks, l);
    }
  }

  lemma RefHasRow(c: Codec, h: Holdings, rows: seq<BlockRow>, l: Location)
    requires Covers(c, h, rows) && BlockAt(h, l).Some? && LogLocation(l)
    ensures HasRow(rows, RefOf(l))
  {
    hide RefOf, BlockAt;
    assert RowAt(c, h, l) in rows;
    var m :| 0 <= m < |rows| && rows[m] == RowAt(c, h, l);
    assert rows[m].ref == RefOf(l);
  }

  lemma RowsOrderable(c: Codec, h: Holdings, rows: seq<BlockRow>)
    requires c.Faithful() && Covers(c, h, rows)
    ensures Orderable(c, rows) && RedumpedAll(c, rows) == rows
  {
    hide OrderKey, BlockAt, RowAt, Redumped;
    forall k | 0 <= k < |rows|
      ensures OrderKey(c, rows[k]).Some? && Redumped(c, rows[k]) == rows[k]
    {
      var l := LocationOfRow(c, h, rows, k);
      KeyOfAnyRow(c, h, l);
      CanonicalRow(c, h, l);
    }
    assert RedumpedAll(c, rows) == rows;
  }

  lemma KeyOfAnyRow(c: Codec, h: Holdings, l: Location)
    requires c.Faithful() && LogLocation(l)
    ensures OrderKey(c, RowAt(c, h, l)).Some?
  {
    KeyOfRow(c, h, l);
  }

  lemma CanonicalRow(c: Codec, h: Holdings, l: Location)
    requires c.Faithful()
    ensures Redumped(c, RowAt(c, h, l)) == RowAt(c, h, l)
  {
    TextReadBack(c, SectionAt(h, l));
    VariantReadBack(c, VariantAt(h, l));
    hide RefOf, SectionAt, VariantAt, VariantToken, ReadText, ReadVariant;
  }

  /** Decoding the block tables, in any order, gives the model's blocks. */
  lemma HoldingsReadBack(host: Host, h: Holdings, ls: seq<Location>, t: Tables, prose: map<string, string>)
    requires host.codec.Faithful() && Lists(h, ls) && h.logs.Keys == LOGS && ProseAgrees(h, prose)
    requires multiset(t.blocks) == multiset(BlockTable(host.codec, h, ls))
    requires multiset(t.values) == multiset(ValueTable(host.codec, h, ls))
    requires forall l :: BlockAt(h, l).Some? ==> BlockValid(host, SectionAt(h, l), BlockAt(h, l).value)
    requires PlainHoldings(h)
    requires forall s :: s in h.sections && h.sections[s].Variants? ==> h.sections[s].peers != map[]
    requires forall s :: s in h.extensions && h.extensions[s].Many? ==> h.extensions[s].peers != []
    ensures var rows := SortRows(host.codec, t.blocks);
            && Orderable(host.codec, t.blocks) && Covers(host.codec, h, t.blocks)
            && PlaceRows(host.codec, t, prose, Beginning(h), EmptyPaths(h), rows, |rows|) == Success(h)
            && DescriptorsAgree(host.codec, h, RedumpedAll(host.codec, rows))
  {
    hide *;
    var c := host.codec;
    var rows := SortRows(c, t.blocks);
    TableCovers(c, h, ls);
    PermutedCovers(c, h, BlockTable(c, h, ls), t.blocks);
    RowsOrderable(c, h, t.blocks);
    SortKeepsRows(c, t.blocks);
    SortSorts(c, t.blocks);
    PermutedCovers(c, h, t.blocks, rows);
    RowsOrderable(c, h, rows);
    BeginningHolds(h);
    PlacesAll(host, h, t, ls, prose, Beginning(h), rows, |rows|);
    RefsComplete(c, h, rows);
    AllRead(h, PlaceRows(c, t, prose, Beginning(h), EmptyPaths(h), rows, |rows|).value, RefsOf(rows, |rows|));
    Agreement(c, h, ls, rows);
  }

  lemma Agreement(c: Codec, h: Holdings, ls: seq<Location>, rows: seq<BlockRow>)
    requires Lists(h, ls) && multiset(BlockTable(c, h, ls)) == multiset(rows)
    ensures DescriptorsAgree(c, h, rows)
  {
  }

  /** What validity says of the holdings. */
  lemma ValidHoldings(host: Host, m: Model)
    requires Valid(host, m)
    ensures var h := m.holdings;
            && h.logs.Keys == LOGS
            && (forall l :: BlockAt(h, l).Some? ==> BlockValid(host, SectionAt(h, l), BlockAt(h, l).value))
            && (forall s :: s in h.sections && h.sections[s].Variants? ==> h.sections[s].peers != map[])
            && (forall s :: s in h.extensions && h.extensions[s].Many? ==> h.extensions[s].peers != [])
    ensures TextAt(m.frontmatter, "deal_id").Some? && TextAt(m.frontmatter, "deal_name").Some?
    ensures m.extra.Keys !! RESERVED
    ensures Nests(ModelJson(m), CELL_DEPTH)
  {
    hide BlockValid, BlockAt, SectionAt, PeersOrdered, VariantStated, TextAt, ModelJson;
    forall s | s in m.holdings.extensions && m.holdings.extensions[s].Many?
      ensures m.holdings.extensions[s].peers != []
    {
      assert ExtensionValid(host, s, m.holdings.extensions[s]);
    }
  }

  lemma StampedValid(host: Host, m: Model)
    requires Valid(host, m)
    ensures Valid(host, Stamped(host, m)) && Digest(host, Stamped(host, m)) == Digest(host, m)
  {
    assert ModelJson(Stamped(host, m)) == ModelJson(m);
    hide BlockValid, BlockAt, SectionAt, ExtensionValid, ModelJson, Digest;
  }

  /** No number of the model is negative zero, and every number is finite. */
  ghost predicate PlainModel(m: Model) {
    PlainMembers(m.frontmatter) && PlainMembers(m.extra) && PlainHoldings(m.holdings)
  }

  /** A model without negative zeros comes back as it was. */
  lemma PlainRoundTrip(host: Host, m: Model, ls: seq<Location>, t: Tables)
    requires host.codec.Faithful() && Lists(m.holdings, ls) && PlainModel(m)
    requires TextAt(m.frontmatter, "deal_id").Some? && TextAt(m.frontmatter, "deal_name").Some? && Valid(host, m)
    requires Shuffled(t, Encoded(host, m, ls))
    ensures Decode(host, t) == Success(Stamped(host, m))
  {
    var c, h := host.codec, m.holdings;
    EncodedParts(host, m, ls, t);
    assert PlainMembers(m.frontmatter) && PlainMembers(m.extra) && PlainHoldings(h);
    hide *;
    ValidHoldings(host, m);
    FrontmatterReadBack(c, m.frontmatter, t.frontmatter);
    StartsAtBeginning(h);
    EmptyReadBack(c, h);
    ExtraReadBack(c, m);
    ProseReadBack(c, h, ls, t.prose);
    var prose := ReadProse(c, t.prose).value;
    HoldingsReadBack(host, h, ls, t, prose);
    RowsUsed(c, h, ls, t, prose);
    StampedValid(host, m);
    VariantReadBack(c, m.generatedAt);
    VariantReadBack(c, m.generator);
    TextReadBack(c, TextAt(m.frontmatter, "deal_id").value);
    TextReadBack(c, TextAt(m.frontmatter, "deal_name").value);
    DecodeSteps(host, t, m, prose);
  }

  lemma FrontmatterReadBack(c: Codec, frontmatter: Members, rows: seq<Row>)
    requires c.Faithful() && PlainMembers(frontmatter)
    requires multiset(rows) == multiset(Flatten(c, Object(frontmatter), ""))
    ensures Unflatten(c, rows) == Some(Object(frontmatter))
  {
    UnflattenFlatten(c, rows, Object(frontmatter));
    hide Unflatten, Flatten, Storable, Normal;
  }

  lemma EncodedParts(host: Host, m: Model, ls: seq<Location>, t: Tables)
    requires TextAt(m.frontmatter, "deal_id").Some? && TextAt(m.frontmatter, "deal_name").Some? && Lists(m.holdings, ls)
    requires Shuffled(t, Encoded(host, m, ls))
    ensures var c, h := host.codec, m.holdings;
            && |t.document| == 1 && t.manifestDigest == Digest(host, m)
            && multiset(t.frontmatter) == multiset(Flatten(c, Object(m.frontmatter), ""))
            && multiset(t.blocks) == multiset(BlockTable(c, h, ls))
                && multiset(t.values) == multiset(ValueTable(c, h, ls))
            && multiset(t.prose) == multiset(ProseTable(c, h, ls))
            && t.document[0] == DocumentRow(VariantToken(c, m.generatedAt), VariantToken(c, m.generator),
                Digest(host, m),
                                            c.dump(Text(TextAt(m.frontmatter, "deal_id").value)),
                                            c.dump(Text(TextAt(m.frontmatter, "deal_name").value)),
                                            c.dump(Object(m.extra)), c.dump(EmptyCell(h)))
  {
    hide Flatten, BlockTable, ValueTable, ProseTable, EmptyCell, TextAt, VariantToken, Digest;
  }

  /** The decoder's checks, once each has been shown to pass. */
  lemma DecodeSteps(host: Host, t: Tables, m: Model, prose: map<string, string>)
    requires |t.document| == 1 && t.manifestDigest == Digest(host, m) == t.document[0].digest
    requires TextAt(m.frontmatter, "deal_id").Some? && TextAt(m.frontmatter, "deal_name").Some?
    requires m.extra.Keys !! RESERVED
    requires Digest(host, Stamped(host, m)) == Digest(host, m) && Valid(host, Stamped(host, m))
    requires Unflatten(host.codec, t.frontmatter) == Some(Object(m.frontmatter))
    requires var c, doc, h := host.codec, t.document[0], m.holdings;
             && ReadVariant(c, doc.generatedAt) == Some(m.generatedAt)
                 && ReadVariant(c, doc.generator) == Some(m.generator)
             && ReadText(c, doc.dealId) == TextAt(m.frontmatter, "deal_id")
                 && ReadText(c, doc.dealName) == TextAt(m.frontmatter, "deal_name")
             && ReadObject(c, doc.extra) == Some(m.extra) && ReadEmpty(c, doc.empty) == Some(EmptyPaths(h))
             && StartEmpty(EmptyPaths(h)) == Some(Beginning(h))
             && ReadProse(c, t.prose) == Some(prose) && ScopesKnown(t) && AllUsed(t, prose) && Orderable(c, t.blocks)
             && var rows := SortRows(c, t.blocks);
                && PlaceRows(c, t, prose, Beginning(h), EmptyPaths(h), rows, |rows|) == Success(h)
                && DescriptorsAgree(c, h, RedumpedAll(c, rows))
    ensures Decode(host, t) == Success(Stamped(host, m))
  {
    hide TextAt, ReadVariant, ReadText, ReadObject, ReadEmpty, StartEmpty, EmptyPaths, Beginning, ReadProse;
    hide ScopesKnown, AllUsed;
    hide Orderable, SortRows, PlaceRows, DescriptorsAgree, RedumpedAll, Valid, Unflatten, Digest;
    var doc := t.document[0];
    assert m.extra.Keys * RESERVED == {};
    assert Model(m.frontmatter, m.holdings, m.generatedAt, m.generator, Some(doc.digest), m.extra) == Stamped(host, m);
  }

  // ----- The tables do not tell negative zero from zero -----

  lemma NormalPut(m: Members, k: string, v: Json)
    ensures NormalMembers(m[k := v]) == NormalMembers(m)[k := Normal(v)]
  {
    hide Normal;
    assert NormalMembers(m[k := v]).Keys == NormalMembers(m)[k := Normal(v)].Keys;
  }

  lemma NormalObject(m: Members)
    ensures Normal(Object(m)) == Object(NormalMembers(m))
  {
  }

  lemma NormalNothing()
    ensures NormalMembers(map[]) == map[]
  {
  }

  lemma BlockJsonNormal(b: Block)
    ensures BlockJson(NormalBlock(b)) == Normal(BlockJson(b))
  {
    var content := b.content["_meta" := Object(b.meta)];
    var one := b.extra["annotation" := Object(b.annotation)];
    var two := one["content" := Object(content)];
    NormalObject(b.meta);
    NormalPut(b.content, "_meta", Object(b.meta));
    NormalObject(content);
    NormalObject(b.annotation);
    NormalPut(b.extra, "annotation", Object(b.annotation));
    NormalPut(one, "content", Object(content));
    if b.prose.Some? {
      NormalPut(two, "prose", Text(b.prose.value));
      NormalObject(two["prose" := Text(b.prose.value)]);
    } else {
      NormalObject(two);
    }
    hide NormalMembers;
  }

  lemma EntryJsonNormal(e: Entry)
    ensures EntryJson(NormalEntry(e)) == Normal(EntryJson(e))
  {
    match e
    case Single(b) =>
      BlockJsonNormal(b);
    case Variants(peers) =>
      VariantsJsonNormal(peers);
      hide BlockJson, NormalBlock, Normal;
  }

  lemma VariantsJsonNormal(peers: map<string, Block>)
    ensures EntryJson(Variants(map v | v in peers :: NormalBlock(peers[v]))) == Normal(EntryJson(Variants(peers)))
  {
    hide BlockJson, NormalBlock;
    forall v | v in peers
      ensures BlockJson(NormalBlock(peers[v])) == Normal(BlockJson(peers[v]))
    {
      BlockJsonNormal(peers[v]);
    }
    var n := map v | v in peers :: NormalBlock(peers[v]);
    assert EntryJson(Variants(n)).members == Normal(EntryJson(Variants(peers))).members;
  }

  lemma PeerJsonNormal(p: Peer)
    ensures PeerJson(Peer(p.variant, NormalBlock(p.block))) == Normal(PeerJson(p))
  {
    var variant := if p.variant.Some? then Text(p.variant.value) else Json.Null;
    BlockJsonNormal(p.block);
    NormalNothing();
    NormalPut(map[], "variant", variant);
    NormalPut(map["variant" := variant], "block", BlockJson(p.block));
    NormalObject(map["variant" := variant]["block" := BlockJson(p.block)]);
    hide BlockJson, NormalBlock, NormalMembers;
  }

  lemma ExtensionJsonNormal(e: Extension)
    ensures ExtensionJson(NormalExtension(e)) == Normal(ExtensionJson(e))
  {
    NormalNothing();
    match e
    case One(b) =>
      BlockJsonNormal(b);
      NormalPut(map[], "mode", Text("single"));
      NormalPut(map["mode" := Text("single")], "block", BlockJson(b));
      NormalObject(map["mode" := Text("single")]["block" := BlockJson(b)]);
      hide BlockJson, NormalBlock, NormalMembers;
    case Many(peers) =>
      var blocks := Array(seq(|peers|, i requires 0 <= i < |peers| => PeerJson(peers[i])));
      PeersJsonNormal(peers, blocks);
      NormalPut(map[], "mode", Text("variants"));
      NormalPut(map["mode" := Text("variants")], "blocks", blocks);
      NormalObject(map["mode" := Text("variants")]["blocks" := blocks]);
      hide PeerJson, NormalPeers, NormalMembers;
  }

  lemma PeersJsonNormal(peers: seq<Peer>, blocks: Json)
    requires blocks == Array(seq(|peers|, i requires 0 <= i < |peers| => PeerJson(peers[i])))
    ensures var n := NormalPeers(peers);
            Array(seq(|n|, i requires 0 <= i < |n| => PeerJson(n[i]))) == Normal(blocks)
  {
    var n := NormalPeers(peers);
    forall i | 0 <= i < |peers|
      ensures PeerJson(n[i]) == Normal(PeerJson(peers[i]))
    {
      PeerJsonNormal(peers[i]);
    }
    hide PeerJson, NormalPeers;
    assert seq(|n|, i requires 0 <= i < |n| => PeerJson(n[i])) == Normal(blocks).items;
  }

  lemma ListJsonNormal(blocks: seq<Block>)
    ensures ListJson(NormalBlocks(blocks)) == Normal(ListJson(blocks))
  {
    forall i | 0 <= i < |blocks|
      ensures BlockJson(NormalBlock(blocks[i])) == Normal(BlockJson(blocks[i]))
    {
      BlockJsonNormal(blocks[i]);
    }
    hide BlockJson, NormalBlock;
    assert ListJson(NormalBlocks(blocks)).items == Normal(ListJson(blocks)).items;
  }

  lemma LogJsonNormal(h: Holdings, log: Collection)
    ensures LogJson(NormalHoldings(h), log) == Normal(LogJson(h, log))
  {
    ListJsonNormal(if log in h.logs then h.logs[log] else []);
    assert NormalBlocks([]) == [];
    hide ListJson, NormalBlocks;
  }

  lemma NormalKeys(h: Holdings)
    ensures var n := NormalHoldings(h);
            n.sections.Keys == h.sections.Keys && n.extensions.Keys == h.extensions.Keys
                && n.superseded.Keys == h.superseded.Keys
  {
    hide NormalEntry, NormalExtension, NormalBlocks;
  }

  lemma NormalHeld(h: Holdings, s: string)
    ensures var n := NormalHoldings(h);
            && (s in h.sections ==> s in n.sections && n.sections[s] == NormalEntry(h.sections[s]))
            && (s in h.extensions ==> s in n.extensions && n.extensions[s] == NormalExtension(h.extensions[s]))
            && (s in h.superseded ==> s in n.superseded && n.superseded[s] == NormalBlocks(h.superseded[s]))
  {
    hide NormalEntry, NormalExtension, NormalBlocks;
  }

  lemma SectionsJsonNormal(h: Holdings)
    ensures SectionsJson(NormalHoldings(h).sections) == NormalMembers(SectionsJson(h.sections))
  {
    hide EntryJson, NormalEntry, NormalHoldings, Normal;
    var n := NormalHoldings(h).sections;
    NormalKeys(h);
    forall s | s in h.sections
      ensures EntryJson(n[s]) == Normal(EntryJson(h.sections[s]))
    {
      NormalHeld(h, s);
      EntryJsonNormal(h.sections[s]);
    }
    assert SectionsJson(n) == NormalMembers(SectionsJson(h.sections));
  }

  lemma ExtensionsJsonNormal(h: Holdings)
    ensures ExtensionsJson(NormalHoldings(h).extensions) == NormalMembers(ExtensionsJson(h.extensions))
  {
    hide ExtensionJson, NormalExtension, NormalHoldings, Normal;
    var n := NormalHoldings(h).extensions;
    NormalKeys(h);
    forall s | s in h.extensions
      ensures ExtensionJson(n[s]) == Normal(ExtensionJson(h.extensions[s]))
    {
      NormalHeld(h, s);
      ExtensionJsonNormal(h.extensions[s]);
    }
    assert ExtensionsJson(n) == NormalMembers(ExtensionsJson(h.extensions));
  }

  lemma HistoryJsonNormal(h: Holdings)
    ensures HistoryJson(NormalHoldings(h).superseded) == NormalMembers(HistoryJson(h.superseded))
  {
    hide ListJson, NormalBlocks, NormalHoldings, Normal;
    var n := NormalHoldings(h).superseded;
    NormalKeys(h);
    forall s | s in h.superseded
      ensures ListJson(n[s]) == Normal(ListJson(h.superseded[s]))
    {
      NormalHeld(h, s);
      ListJsonNormal(h.superseded[s]);
    }
    assert HistoryJson(n) == NormalMembers(HistoryJson(h.superseded));
  }

  lemma OuterNormal(extra: Members, frontmatter: Json, sections: Json, logs: (Json, Json, Json), extensions: Json,
      history: Json)
    ensures NormalMembers(Outer(extra, frontmatter, sections, logs, extensions, history))
            == Outer(NormalMembers(extra), Normal(frontmatter), Normal(sections),
                (Normal(logs.0), Normal(logs.1), Normal(logs.2)),
                     Normal(extensions), Normal(history))
  {
    var a := extra["envelope_version" := Text("2.0")];
    var b := a["format_version" := Text("3.0")];
    var c := b["frontmatter" := frontmatter]["sections" := sections];
    var d := c["pipeline_log" := logs.0]["custom_calculations" := logs.1]["custom_scenarios" := logs.2];
    NormalTexts();
    hide NormalMembers, Normal;
    NormalPut(extra, "envelope_version", Text("2.0"));
    NormalPut(a, "format_version", Text("3.0"));
    NormalPut(b, "frontmatter", frontmatter);
    NormalPut(b["frontmatter" := frontmatter], "sections", sections);
    NormalPut(c, "pipeline_log", logs.0);
    NormalPut(c["pipeline_log" := logs.0], "custom_calculations", logs.1);
    NormalPut(c["pipeline_log" := logs.0]["custom_calculations" := logs.1], "custom_scenarios", logs.2);
    NormalPut(d, "extensions", extensions);
    NormalPut(d["extensions" := extensions], "superseded", history);
  }

  /** The whole model's text, and with it the digest, is that of its normal form. */
  lemma ModelJsonNormal(m: Model)
    ensures ModelJson(NormalModel(m)) == Normal(ModelJson(m))
  {
    var h := m.holdings;
    NormalObject(m.frontmatter);
    SectionsJsonNormal(h);
    NormalObject(SectionsJson(h.sections));
    LogJsonNormal(h, Pipeline);
    LogJsonNormal(h, Calculations);
    LogJsonNormal(h, Scenarios);
    ExtensionsJsonNormal(h);
    NormalObject(ExtensionsJson(h.extensions));
    HistoryJsonNormal(h);
    NormalObject(HistoryJson(h.superseded));
    var logs := (LogJson(h, Pipeline), LogJson(h, Calculations), LogJson(h, Scenarios));
    var outer := Outer(m.extra, Object(m.frontmatter), Object(SectionsJson(h.sections)), logs,
                       Object(ExtensionsJson(h.extensions)), Object(HistoryJson(h.superseded)));
    OuterNormal(m.extra, Object(m.frontmatter), Object(SectionsJson(h.sections)), logs,
                Object(ExtensionsJson(h.extensions)), Object(HistoryJson(h.superseded)));
    NormalObject(outer);
    hide Outer, SectionsJson, ExtensionsJson, HistoryJson, LogJson, NormalHoldings, NormalMembers, Normal;
  }

  lemma NormalTexts()
    ensures forall s {:trigger Text(s)} :: Normal(Text(s)) == Text(s)
  {
  }

  lemma BlockAtNormal(h: Holdings, l: Location)
    ensures BlockAt(NormalHoldings(h), l)
            == match BlockAt(h, l) { case None => None case Some(b) => Some(NormalBlock(b)) }
  {
    hide NormalBlock;
  }

  lemma ListsNormal(h: Holdings, ls: seq<Location>)
    requires Lists(h, ls)
    ensures Lists(NormalHoldings(h), ls)
  {
    forall l
      ensures BlockAt(NormalHoldings(h), l).Some? <==> BlockAt(h, l).Some?
    {
      BlockAtNormal(h, l);
    }
    hide BlockAt, LogLocation, NormalHoldings;
  }

  lemma TextAtNormal(m: Members, k: string)
    ensures TextAt(NormalMembers(m), k) == TextAt(m, k)
  {
  }

  lemma PlaceNormal(h: Holdings, l: Location)
    ensures SectionAt(NormalHoldings(h), l) == SectionAt(h, l) && VariantAt(NormalHoldings(h), l) == VariantAt(h, l)
  {
    BlockAtNormal(h, l);
    if BlockAt(h, l).Some? {
      TextAtNormal(BlockAt(h, l).value.annotation, "section");
      TextAtNormal(BlockAt(h, l).value.annotation, "variant");
    }
    hide BlockAt, TextAt, NormalMembers;
  }

  lemma RowAtNormal(c: Codec, h: Holdings, l: Location)
    ensures RowAt(c, NormalHoldings(h), l) == RowAt(c, h, l)
  {
    PlaceNormal(h, l);
    hide SectionAt, VariantAt, NormalHoldings, RefOf;
  }

  lemma {:induction false} BlockTableNormal(c: Codec, h: Holdings, ls: seq<Location>)
    ensures BlockTable(c, NormalHoldings(h), ls) == BlockTable(c, h, ls)
  {
    if ls != [] {
      BlockTableNormal(c, h, ls[..|ls| - 1]);
      RowAtNormal(c, h, ls[|ls| - 1]);
    }
    hide RowAt, NormalHoldings;
  }

  lemma BlockValuesNormal(c: Codec, ref: string, b: Block)
    requires c.Unsigned()
    ensures BlockValues(c, ref, NormalBlock(b)) == BlockValues(c, ref, b)
  {
    MembersRowsNormal(c, b.annotation);
    MembersRowsNormal(c, b.meta);
    MembersRowsNormal(c, b.content);
    MembersRowsNormal(c, b.extra);
    hide Flatten, NormalMembers;
  }

  lemma MembersRowsNormal(c: Codec, m: Members)
    requires c.Unsigned()
    ensures Flatten(c, Object(NormalMembers(m)), "") == Flatten(c, Object(m), "")
  {
    FlattenNormal(c, Object(m), "");
    NormalObject(m);
    hide Flatten, Normal;
  }

  lemma {:induction false} ValueTableNormal(c: Codec, h: Holdings, ls: seq<Location>)
    requires c.Unsigned()
             && forall k :: 0 <= k < |ls| ==> BlockAt(h, ls[k]).Some? && BlockAt(NormalHoldings(h), ls[k]).Some?
    ensures ValueTable(c, NormalHoldings(h), ls) == ValueTable(c, h, ls)
  {
    hide BlockValues, BlockAt, NormalHoldings, NormalBlock, RefOf, Codec.Unsigned;
    if ls != [] {
      var last := ls[|ls| - 1];
      ValueTableNormal(c, h, ls[..|ls| - 1]);
      BlockAtNormal(h, last);
      BlockValuesNormal(c, RefOf(last), BlockAt(h, last).value);
    }
  }

  lemma {:induction false} WithProseNormal(h: Holdings, ls: seq<Location>)
    ensures WithProse(NormalHoldings(h), ls) == WithProse(h, ls)
  {
    if ls != [] {
      WithProseNormal(h, ls[..|ls| - 1]);
      BlockAtNormal(h, ls[|ls| - 1]);
    }
    hide BlockAt, NormalHoldings;
  }

  lemma ProseTableNormal(c: Codec, h: Holdings, ls: seq<Location>)
    ensures ProseTable(c, NormalHoldings(h), ls) == ProseTable(c, h, ls)
  {
    WithProseNormal(h, ls);
    ProseListed(h, ls);
    ProseListed(NormalHoldings(h), ls);
    var located := WithProse(h, ls);
    hide BlockAt, NormalHoldings, RefOf, WithProse;
    forall k | 0 <= k < |located|
      ensures HasProse(h, located[k]) && HasProse(NormalHoldings(h), located[k])
      ensures ProseRowAt(c, NormalHoldings(h), located[k]) == ProseRowAt(c, h, located[k])
    {
      assert located[k] in located;
      BlockAtNormal(h, located[k]);
    }
    assert ProseTable(c, NormalHoldings(h), ls) == ProseTable(c, h, ls);
  }

  lemma EmptyPathsNormal(h: Holdings)
    ensures EmptyPaths(NormalHoldings(h)) == EmptyPaths(h)
  {
    var n := NormalHoldings(h);
    assert forall s :: s in h.superseded ==> (n.superseded[s] == [] <==> h.superseded[s] == []);
    hide Pointer, NormalHoldings, Name, SortedKeys;
    assert (set s | s in n.superseded && n.superseded[s] == [] :: Pointer([Name(History), s]))
        == (set s | s in h.superseded && h.superseded[s] == [] :: Pointer([Name(History), s]));
  }

  /** The tables of a model are those of its normal form. */
  lemma EncodedNormal(host: Host, m: Model, ls: seq<Location>)
    requires host.codec.Unsigned() && Lists(m.holdings, ls)
    requires TextAt(m.frontmatter, "deal_id").Some? && TextAt(m.frontmatter, "deal_name").Some?
    ensures var n := NormalModel(m);
            && Lists(n.holdings, ls) && TextAt(n.frontmatter, "deal_id").Some?
                && TextAt(n.frontmatter, "deal_name").Some?
            && Encoded(host, n, ls) == Encoded(host, m, ls)
  {
    var c, h := host.codec, m.holdings;
    ListsNormal(h, ls);
    TextAtNormal(m.frontmatter, "deal_id");
    TextAtNormal(m.frontmatter, "deal_name");
    MembersRowsNormal(c, m.frontmatter);
    BlockTableNormal(c, h, ls);
    ValueTableNormal(c, h, ls);
    ProseTableNormal(c, h, ls);
    EmptyPathsNormal(h);
    DigestNormal(host, m);
    NormalObject(m.extra);
    assert c.dump(Normal(Object(m.extra))) == c.dump(Object(m.extra));
    hide Flatten, BlockTable, ValueTable, ProseTable, EmptyPaths, TextAt, Digest, Lists, NormalHoldings, NormalMembers;
    hide Normal, EmptyItems;
  }

  lemma DigestNormal(host: Host, m: Model)
    requires host.codec.Unsigned()
    ensures Digest(host, NormalModel(m)) == Digest(host, m)
  {
    ModelJsonNormal(m);
    hide ModelJson, NormalModel, Normal;
    assert host.codec.dump(Normal(ModelJson(m))) == host.codec.dump(ModelJson(m));
  }

  // ----- The normal form of a valid model -----

  lemma StorableNormal(m: Members)
    requires Storable(Object(m))
    ensures PlainMembers(NormalMembers(m))
  {
    NormalStorable(Object(m));
    NormalTwice(Object(m));
    NormalObject(m);
    hide Normal, Storable, NormalMembers;
  }

  lemma {:induction false} NormalStorable(v: Json)
    requires Storable(v)
    ensures Storable(Normal(v))
  {
    match v
    case Number(_) =>
    case Array(items) =>
      forall i | 0 <= i < |items|
        ensures Storable(Normal(items[i]))
      {
        NormalStorable(items[i]);
      }
    case Object(members) =>
      forall k | k in members
        ensures Storable(Normal(members[k]))
      {
        NormalStorable(members[k]);
      }
    case _ =>
  }

  lemma {:induction false} NormalNests(v: Json, depth: nat)
    requires Nests(v, depth)
    ensures Nests(Normal(v), depth)
    decreases v
  {
    match v
    case Array(items) =>
      var n := Normal(v).items;
      forall i | 0 <= i < |n|
        ensures depth > 0 && Nests(n[i], depth - 1)
      {
        NormalNests(items[i], depth - 1);
      }
    case Object(members) =>
      var n := Normal(v).members;
      forall k | k in n
        ensures depth > 0 && Nests(n[k], depth - 1)
      {
        NormalNests(members[k], depth - 1);
      }
    case _ =>
  }

  lemma BlockValidNormal(host: Host, section: string, b: Block)
    requires host.Unsigned() && BlockValid(host, section, b)
    ensures BlockValid(host, section, NormalBlock(b)) && PlainBlock(NormalBlock(b))
  {
    assert host.admits(NormalBlock(b)) == host.admits(b);
    AnnotationNormal(b.annotation);
    hide Storable, TextAt, Host.Unsigned, NormalMembers, Normal;
    TextAtNormal(b.annotation, "section");
    TextAtNormal(b.meta, "section");
    StorableNormal(b.annotation);
    StorableNormal(b.meta);
    StorableNormal(b.content);
    StorableNormal(b.extra);
    NormalNames(b.content);
    NormalNames(b.extra);
  }

  lemma NormalNames(m: Members)
    ensures NormalMembers(m).Keys == m.Keys
  {
  }

  lemma AnnotationNormal(m: Members)
    ensures NormalMembers(m).Keys == m.Keys
    ensures forall k :: k in m ==>
            (m[k].Bool? <==> NormalMembers(m)[k].Bool?) && (m[k].Number? <==> NormalMembers(m)[k].Number?)
                                   && (m[k].Text? <==> NormalMembers(m)[k].Text?)
  {
  }

  lemma ExtensionValidNormal(host: Host, section: string, e: Extension)
    requires host.Unsigned() && ExtensionValid(host, section, e)
    ensures ExtensionValid(host, section, NormalExtension(e))
  {
    match e
    case One(b) =>
      assert host.historical(NormalBlock(b)) == host.historical(b);
    case Many(peers) =>
      forall i | 0 <= i < |peers|
        ensures VariantStated(NormalBlock(peers[i].block), peers[i].variant)
        ensures !host.historical(NormalBlock(peers[i].block))
      {
        assert host.historical(NormalBlock(peers[i].block)) == host.historical(peers[i].block);
        StatedNormal(peers[i].block, peers[i].variant);
      }
      PeersOrderedNormal(peers);
      hide VariantStated, NormalBlock, PeersOrdered, Host.Unsigned;
  }

  lemma StatedNormal(b: Block, variant: Option<string>)
    requires VariantStated(b, variant)
    ensures VariantStated(NormalBlock(b), variant)
  {
  }

  lemma PeersOrderedNormal(peers: seq<Peer>)
    requires PeersOrdered(peers)
    ensures PeersOrdered(NormalPeers(peers))
  {
    var n := NormalPeers(peers);
    forall i, j | 0 <= i < j < |n|
      ensures Before(n[i].variant, n[j].variant)
    {
      assert Before(peers[i].variant, peers[j].variant);
    }
    hide UnitsAtMost, Units, NormalPeers;
  }

  lemma OuterValidNormal(host: Host, m: Model)
    requires OuterValid(host, m)
    ensures OuterValid(host, NormalModel(m)) && PlainMembers(NormalModel(m).frontmatter)
    ensures PlainMembers(NormalModel(m).extra)
  {
    TextAtNormal(m.frontmatter, "deal_id");
    TextAtNormal(m.frontmatter, "deal_name");
    TextAtNormal(m.frontmatter, "uw_version");
    AssetNormal(m.frontmatter);
    StorableNormal(m.frontmatter);
    StorableNormal(m.extra);
    NormalNests(ModelJson(m), CELL_DEPTH);
    ModelJsonNormal(m);
    hide ModelJson, TextAt, Storable, Normal, Nests, NormalHoldings;
  }

  lemma AssetNormal(m: Members)
    ensures "asset_class" in NormalMembers(m) ==>
            "asset_class" in m && (m["asset_class"].Text? ==> NormalMembers(m)["asset_class"].Text?)
  {
  }

  lemma HoldingsValidNormal(host: Host, h: Holdings)
    requires host.Unsigned() && HoldingsValid(host, h)
    ensures HoldingsValid(host, NormalHoldings(h)) && PlainHoldings(NormalHoldings(h))
  {
    var n := NormalHoldings(h);
    hide BlockValid, PlainBlock, BlockAt, SectionAt, ExtensionValid, NormalHoldings, NormalExtension, NormalEntry;
    hide Host.Unsigned;
    forall l | BlockAt(n, l).Some?
      ensures BlockValid(host, SectionAt(n, l), BlockAt(n, l).value) && PlainBlock(BlockAt(n, l).value)
    {
      BlockAtNormal(h, l);
      PlaceNormal(h, l);
      BlockValidNormal(host, SectionAt(h, l), BlockAt(h, l).value);
    }
    NormalKeys(h);
    forall s | s in n.sections && n.sections[s].Variants?
      ensures n.sections[s].peers != map[]
    {
      NormalHeld(h, s);
      VariantsNormal(h.sections[s]);
    }
    forall s | s in n.extensions
      ensures ExtensionValid(host, s, n.extensions[s])
    {
      NormalHeld(h, s);
      ExtensionValidNormal(host, s, h.extensions[s]);
    }
  }

  lemma VariantsNormal(e: Entry)
    ensures NormalEntry(e).Variants? ==> e.Variants? && (e.peers != map[] ==> NormalEntry(e).peers != map[])
  {
    if e.Variants? && e.peers != map[] {
      var v :| v in e.peers;
      assert v in NormalEntry(e).peers;
    }
  }

  lemma ValidNormal(host: Host, m: Model)
    requires host.Unsigned() && Valid(host, m)
    ensures Valid(host, NormalModel(m)) && PlainModel(NormalModel(m))
  {
    assert NormalModel(m).holdings == NormalHoldings(m.holdings);
    assert NormalModel(m).holdings.logs.Keys == m.holdings.logs.Keys;
    hide NormalModel, OuterValid, HoldingsValid, Host.Unsigned, PlainMembers, PlainHoldings;
    OuterValidNormal(host, m);
    HoldingsValidNormal(host, m.holdings);
  }

  /**
   The bundle round trip: decoding the tables of a valid model, each table in any order, rebuilds
   the stamped model, with negative zero read as zero.
   */
  lemma RoundTrip(host: Host, m: Model, ls: seq<Location>, t: Tables)
    requires host.codec.Faithful() && host.Unsigned() && Lists(m.holdings, ls)
    requires TextAt(m.frontmatter, "deal_id").Some? && TextAt(m.frontmatter, "deal_name").Some? && Valid(host, m)
    requires Shuffled(t, Encoded(host, m, ls))
    ensures Decode(host, t) == Success(NormalModel(Stamped(host, m)))
  {
    assert host.codec.Unsigned();
    hide *;
    EncodedNormal(host, m, ls);
    ValidNormal(host, m);
    DigestNormal(host, m);
    PlainRoundTrip(host, NormalModel(m), ls, t);
    StampedNormal(host, m);
  }

  lemma StampedNormal(host: Host, m: Model)
    requires Digest(host, NormalModel(m)) == Digest(host, m)
    ensures Stamped(host, NormalModel(m)) == NormalModel(Stamped(host, m))
  {
    hide Digest, NormalHoldings, NormalMembers;
  }

  /** Some number of the model is negative zero. */
  ghost predicate SignsZero(m: Model) {
    || HasNegativeZero(Object(m.frontmatter)) || HasNegativeZero(Object(m.extra))
    || exists l, scope ::
        BlockAt(m.holdings, l).Some? && HasNegativeZero(Object(ScopeOf(BlockAt(m.holdings, l).value, scope)))
  }

  /** The model comes back word for word exactly when no number in it is negative zero. */
  lemma RoundTripIff(host: Host, m: Model, ls: seq<Location>, t: Tables)
    requires host.codec.Faithful() && host.Unsigned() && Lists(m.holdings, ls)
    requires TextAt(m.frontmatter, "deal_id").Some? && TextAt(m.frontmatter, "deal_name").Some? && Valid(host, m)
    requires Shuffled(t, Encoded(host, m, ls))
    ensures Decode(host, t) == Success(Stamped(host, m)) <==> !SignsZero(m)
  {
    assert m.holdings.logs.Keys == LOGS;
    hide *;
    RoundTrip(host, m, ls, t);
    NormalModelSame(m);
    StampedSame(host, m);
  }

  lemma StampedSame(host: Host, m: Model)
    ensures NormalModel(Stamped(host, m)) == Stamped(host, m) <==> NormalModel(m) == m
  {
    hide Digest, NormalHoldings, NormalMembers;
  }

  lemma NormalModelSame(m: Model)
    requires m.holdings.logs.Keys == LOGS
    ensures NormalModel(m) == m <==> !SignsZero(m)
  {
    MembersSame(m.frontmatter);
    MembersSame(m.extra);
    HoldingsSame(m.holdings);
    hide NormalHoldings, NormalMembers, HasNegativeZero, BlockAt;
  }

  lemma MembersSame(m: Members)
    ensures NormalMembers(m) == m <==> !HasNegativeZero(Object(m))
  {
    NormalSame(Object(m));
    NormalObject(m);
    hide NormalMembers, HasNegativeZero, Normal;
  }

  lemma BlockSame(b: Block)
    ensures NormalBlock(b) == b <==> forall scope :: !HasNegativeZero(Object(ScopeOf(b, scope)))
  {
    MembersSame(b.annotation);
    MembersSame(b.meta);
    MembersSame(b.content);
    MembersSame(b.extra);
    MembersSame(map[]);
    NormalNothing();
    hide HasNegativeZero, NormalMembers;
    if NormalBlock(b) == b {
      forall scope
        ensures !HasNegativeZero(Object(ScopeOf(b, scope)))
      {
      }
    } else {
      assert HasNegativeZero(Object(ScopeOf(b, Annotation))) || HasNegativeZero(Object(ScopeOf(b, Meta)))
          || HasNegativeZero(Object(ScopeOf(b, Content))) || HasNegativeZero(Object(ScopeOf(b, Rest)));
    }
  }

  lemma HoldingsSame(h: Holdings)
    requires h.logs.Keys == LOGS
    ensures NormalHoldings(h) == h <==>
            forall l, scope :: BlockAt(h, l).Some? ==> !HasNegativeZero(Object(ScopeOf(BlockAt(h, l).value, scope)))
  {
    forall l | BlockAt(h, l).Some?
      ensures NormalBlock(BlockAt(h, l).value) == BlockAt(h, l).value <==>
              forall scope :: !HasNegativeZero(Object(ScopeOf(BlockAt(h, l).value, scope)))
    {
      BlockSame(BlockAt(h, l).value);
    }
    if NormalHoldings(h) == h {
      forall l | BlockAt(h, l).Some?
        ensures NormalBlock(BlockAt(h, l).value) == BlockAt(h, l).value
      {
        BlockAtNormal(h, l);
      }
    } else if forall l :: BlockAt(h, l).Some? ==> NormalBlock(BlockAt(h, l).value) == BlockAt(h, l).value {
      SameBlocks(h);
    }
    hide HasNegativeZero, NormalBlock, NormalHoldings, BlockAt, ScopeOf;
  }

  lemma SameBlocks(h: Holdings)
    requires h.logs.Keys == LOGS
    requires forall l :: BlockAt(h, l).Some? ==> NormalBlock(BlockAt(h, l).value) == BlockAt(h, l).value
    ensures NormalHoldings(h) == h
  {
    hide NormalBlock;
    forall s | s in h.sections
      ensures NormalEntry(h.sections[s]) == h.sections[s]
    {
      SameEntryBlocks(h, s);
    }
    forall k | k in h.logs
      ensures NormalBlocks(h.logs[k]) == h.logs[k]
    {
      assert forall i: nat :: i < |h.logs[k]| ==> BlockAt(h, AtLog(k, i)) == Some(h.logs[k][i]);
    }
    forall s | s in h.extensions
      ensures NormalExtension(h.extensions[s]) == h.extensions[s]
    {
      SameExtensionBlocks(h, s);
    }
    forall s | s in h.superseded
      ensures NormalBlocks(h.superseded[s]) == h.superseded[s]
    {
      assert forall i: nat :: i < |h.superseded[s]| ==> BlockAt(h, AtHistory(s, i)) == Some(h.superseded[s][i]);
    }
    hide BlockAt, NormalBlocks, NormalEntry, NormalExtension;
    assert NormalHoldings(h).sections == h.sections && NormalHoldings(h).logs == h.logs;
    assert NormalHoldings(h).extensions == h.extensions && NormalHoldings(h).superseded == h.superseded;
  }

  lemma SameEntryBlocks(h: Holdings, s: string)
    requires s in h.sections
    requires forall l :: BlockAt(h, l).Some? ==> NormalBlock(BlockAt(h, l).value) == BlockAt(h, l).value
    ensures NormalEntry(h.sections[s]) == h.sections[s]
  {
    hide NormalBlock;
    match h.sections[s]
    case Single(b) =>
      assert BlockAt(h, AtSection(s)) == Some(b);
    case Variants(peers) =>
      assert forall v :: v in peers ==> BlockAt(h, AtVariant(s, v)) == Some(peers[v]);
      assert NormalEntry(h.sections[s]).peers == peers;
  }

  lemma SameExtensionBlocks(h: Holdings, s: string)
    requires s in h.extensions
    requires forall l :: BlockAt(h, l).Some? ==> NormalBlock(BlockAt(h, l).value) == BlockAt(h, l).value
    ensures NormalExtension(h.extensions[s]) == h.extensions[s]
  {
    hide NormalBlock;
    match h.extensions[s]
    case One(b) =>
      assert BlockAt(h, AtExtension(s)) == Some(b);
    case Many(peers) =>
      forall i | 0 <= i < |peers|
        ensures NormalPeers(peers)[i] == peers[i]
      {
        assert BlockAt(h, AtPeer(s, i)) == Some(peers[i].block);
      }
      assert NormalPeers(peers) == peers;
  }

  // ----- The procedures as they run -----

  /** The prose table read row by row. */
  method ReadProseTable(c: Codec, rows: seq<ProseRow>) returns (prose: Option<map<string, string>>)
    ensures prose == ReadProse(c, rows)
  {
    var read: map<string, string> := map[];
    for k := 0 to |rows|
      invariant ReadProse(c, rows[..k]) == Some(read)
    {
      assert rows[..k + 1][..k] == rows[..k];
      var text := ReadText(c, rows[k].token);
      if rows[k].ref != rows[k].block + "/prose" || rows[k].block in read || text.None? {
        ProseStops(c, rows, k + 1);
        return None;
      }
      read := read[rows[k].block := text.value];
    }
    assert rows[..|rows|] == rows;
    return Some(read);
  }

  lemma {:induction false} ProseStops(c: Codec, rows: seq<ProseRow>, k: nat)
    requires k <= |rows| && ReadProse(c, rows[..k]).None?
    ensures ReadProse(c, rows).None?
    decreases |rows| - k
  {
    if k < |rows| {
      assert rows[..k + 1][..k] == rows[..k];
      ProseStops(c, rows, k + 1);
    } else {
      assert rows[..k] == rows;
    }
  }

  /** The block rows placed one by one, references seen once. */
  method PlaceBlocks(c: Codec, t: Tables, prose: map<string, string>, start: Holdings, empty: seq<string>,
      rows: seq<BlockRow>)
    returns (holdings: Result<Holdings, Refusal>)
    ensures holdings == PlaceRows(c, t, prose, start, empty, rows, |rows|)
  {
    hide Place, ReadBlock;
    var got := start;
    var seen: set<string> := {};
    for n := 0 to |rows|
      invariant PlaceRows(c, t, prose, start, empty, rows, n) == Success(got)
      invariant seen == RefsOf(rows, n)
    {
      var row := rows[n];
      RefsMore(rows, n);
      if row.ref in seen {
        PlacingStops(c, t, prose, start, empty, rows, n + 1, |rows|);
        return Failure(DuplicateBlock);
      }
      seen := seen + {row.ref};
      var block := ReadBlock(c, t.values, prose, row.ref);
      if block.None? {
        PlacingStops(c, t, prose, start, empty, rows, n + 1, |rows|);
        return Failure(BadScope);
      }
      var placed := Place(c, got, row, block.value, empty);
      if placed.Failure? {
        PlacingStops(c, t, prose, start, empty, rows, n + 1, |rows|);
        return placed;
      }
      got := placed.value;
    }
    return Success(got);
  }

  lemma {:induction false} PlacingStops(c: Codec, t: Tables, prose: map<string, string>, start: Holdings,
      empty: seq<string>, rows: seq<BlockRow>, k: nat, n: nat)
    requires k <= n <= |rows| && PlaceRows(c, t, prose, start, empty, rows, k).Failure?
    ensures PlaceRows(c, t, prose, start, empty, rows, n) == PlaceRows(c, t, prose, start, empty, rows, k)
  {
    hide Place, ReadBlock;
    if k < n {
      PlacingStops(c, t, prose, start, empty, rows, k, n - 1);
    }
  }

  // ----- Listing the blocks of a model -----

  /** The occupied places of some sections of a collection, each once. */
  ghost predicate ListsUnder(h: Holdings, ls: seq<Location>, k: Collection, sections: set<string>) {
    && (forall i :: 0 <= i < |ls| ==>
        BlockAt(h, ls[i]).Some? && !ls[i].AtLog? && CollectionOf(ls[i]) == k && ls[i].section in sections)
    && (forall i, j :: 0 <= i < j < |ls| ==> ls[i] != ls[j])
    && (forall l :: BlockAt(h, l).Some? && !l.AtLog? && CollectionOf(l) == k && l.section in sections ==> l in ls)
  }

  lemma JoinUnder(h: Holdings, a: seq<Location>, b: seq<Location>, k: Collection, s: set<string>, t: set<string>)
    requires ListsUnder(h, a, k, s) && ListsUnder(h, b, k, t) && s !! t
    ensures ListsUnder(h, a + b, k, s + t)
  {
    hide BlockAt, CollectionOf;
  }

  /** The places of a section's variants, in the order of their names. */
  method ListVariants(h: Holdings, s: string) returns (ls: seq<Location>)
    requires s in h.sections && h.sections[s].Variants?
    ensures ListsUnder(h, ls, Sections, {s})
  {
    hide BlockAt, ListsUnder;
    var names := NamesInOrder(h.sections[s].peers.Keys);
    ls := seq(|names|, i requires 0 <= i < |names| => AtVariant(s, names[i]));
    VariantsUnder(h, s, names, ls);
  }

  lemma VariantsUnder(h: Holdings, s: string, names: seq<string>, ls: seq<Location>)
    requires s in h.sections && h.sections[s].Variants? && forall v :: v in names <==> v in h.sections[s].peers
    requires forall i, j :: 0 <= i < j < |names| ==> names[i] != names[j]
    requires |ls| == |names| && forall i :: 0 <= i < |ls| ==> ls[i] == AtVariant(s, names[i])
    ensures ListsUnder(h, ls, Sections, {s})
  {
    forall i | 0 <= i < |ls|
      ensures BlockAt(h, ls[i]).Some? && ls[i].AtVariant? && ls[i].section == s
    {
      assert names[i] in h.sections[s].peers;
    }
    forall l | BlockAt(h, l).Some? && !l.AtLog? && CollectionOf(l) == Sections && l.section in {s}
      ensures l in ls
    {
      var i :| 0 <= i < |names| && names[i] == l.variant;
      assert ls[i] == l;
    }
  }

  /** The names of a set in UTF-16 order, each once. */
  method NamesInOrder(keys: set<string>) returns (names: seq<string>)
    ensures names == SortedKeys(keys)
    ensures forall k :: k in names <==> k in keys
    ensures forall i, j :: 0 <= i < j < |names| ==> names[i] != names[j]
  {
    names := SortNames(keys);
  }

  /** The places of one section of a collection. */
  method ListGroup(h: Holdings, k: Collection, s: string) returns (ls: seq<Location>)
    requires k == Sections || k == Extensions || k == History
    ensures ListsUnder(h, ls, k, {s})
  {
    if k == Sections && s in h.sections {
      if h.sections[s].Single? {
        ls := [AtSection(s)];
      } else {
        ls := ListVariants(h, s);
      }
    } else if k == Extensions && s in h.extensions {
      if h.extensions[s].One? {
        ls := [AtExtension(s)];
      } else {
        ls := seq(|h.extensions[s].peers|, i requires 0 <= i < |h.extensions[s].peers| => AtPeer(s, i));
        forall l | BlockAt(h, l).Some? && !l.AtLog? && CollectionOf(l) == k && l.section in {s}
          ensures l in ls
        {
          assert ls[l.index] == l;
        }
      }
    } else if k == History && s in h.superseded {
      ls := seq(|h.superseded[s]|, i requires 0 <= i < |h.superseded[s]| => AtHistory(s, i));
      forall l | BlockAt(h, l).Some? && !l.AtLog? && CollectionOf(l) == k && l.section in {s}
        ensures l in ls
      {
        assert ls[l.index] == l;
      }
    } else {
      ls := [];
    }
  }

  /** The places of a sectioned collection, section by section. */
  method ListCollection(h: Holdings, k: Collection, keys: set<string>) returns (ls: seq<Location>)
    requires k == Sections || k == Extensions || k == History
    ensures ListsUnder(h, ls, k, keys)
  {
    hide BlockAt, CollectionOf, ListsUnder;
    var names := NamesInOrder(keys);
    ls := [];
    NothingUnder(h, k);
    for n := 0 to |names|
      invariant ListsUnder(h, ls, k, NamesUpTo(names, n))
    {
      var group := ListGroup(h, k, names[n]);
      NextName(names, n);
      JoinUnder(h, ls, group, k, NamesUpTo(names, n), {names[n]});
      ls := ls + group;
    }
    assert NamesUpTo(names, |names|) == keys;
  }

  function NamesUpTo(names: seq<string>, n: nat): set<string>
    requires n <= |names|
  {
    set i | 0 <= i < n :: names[i]
  }

  lemma NextName(names: seq<string>, n: nat)
    requires n < |names| && forall i, j :: 0 <= i < j < |names| ==> names[i] != names[j]
    ensures NamesUpTo(names, n + 1) == NamesUpTo(names, n) + {names[n]} && NamesUpTo(names, n) !! {names[n]}
  {
  }

  lemma NothingUnder(h: Holdings, k: Collection)
    ensures ListsUnder(h, [], k, {}) && forall names :: NamesUpTo(names, 0) == {}
  {
  }

  method ListLog(h: Holdings, log: Collection) returns (ls: seq<Location>)
    requires log in LOGS && log in h.logs
    ensures |ls| == |h.logs[log]| && forall i :: 0 <= i < |ls| ==> ls[i] == AtLog(log, i)
  {
    ls := seq(|h.logs[log]|, i requires 0 <= i < |h.logs[log]| => AtLog(log, i));
  }

  /** The blocks of a model, every occupied place once, in the order the encoder writes them. */
  method ListBlocks(h: Holdings) returns (ls: seq<Location>)
    requires h.logs.Keys == LOGS
    ensures Lists(h, ls)
  {
    var sections := ListCollection(h, Sections, h.sections.Keys);
    var pipeline := ListLog(h, Pipeline);
    var calculations := ListLog(h, Calculations);
    var scenarios := ListLog(h, Scenarios);
    var extensions := ListCollection(h, Extensions, h.extensions.Keys);
    var history := ListCollection(h, History, h.superseded.Keys);
    ls := sections + pipeline + calculations + scenarios + extensions + history;
    AllListed(h, sections, pipeline, calculations, scenarios, extensions, history);
  }

  predicate IsLog(h: Holdings, log: Collection, ls: seq<Location>) {
    log in h.logs && |ls| == |h.logs[log]| && forall i :: 0 <= i < |ls| ==> ls[i] == AtLog(log, i)
  }

  lemma AllListed(h: Holdings, a: seq<Location>, b: seq<Location>, c: seq<Location>, d: seq<Location>,
      e: seq<Location>, f: seq<Location>)
    requires h.logs.Keys == LOGS
    requires ListsUnder(h, a, Sections, h.sections.Keys) && ListsUnder(h, e, Extensions, h.extensions.Keys)
    requires ListsUnder(h, f, History, h.superseded.Keys)
    requires IsLog(h, Pipeline, b) && IsLog(h, Calculations, c) && IsLog(h, Scenarios, d)
    ensures Lists(h, a + b + c + d + e + f)
  {
    UnderCounts(h, a, Sections, h.sections.Keys);
    UnderCounts(h, e, Extensions, h.extensions.Keys);
    UnderCounts(h, f, History, h.superseded.Keys);
    LogCounts(h, b, Pipeline);
    LogCounts(h, c, Calculations);
    LogCounts(h, d, Scenarios);
    hide ListsUnder, IsLog;
    JoinLists(h, a, b, {Sections}, {Pipeline});
    JoinLists(h, a + b, c, {Sections, Pipeline}, {Calculations});
    JoinLists(h, a + b + c, d, {Sections, Pipeline, Calculations}, {Scenarios});
    JoinLists(h, a + b + c + d, e, {Sections, Pipeline, Calculations, Scenarios}, {Extensions});
    JoinLists(h, a + b + c + d + e, f, {Sections, Pipeline, Calculations, Scenarios, Extensions}, {History});
    AllCollections(h, a + b + c + d + e + f);
  }

  /** The occupied places of some collections, each once. */
  ghost predicate ListsIn(h: Holdings, ls: seq<Location>, ks: set<Collection>) {
    && (forall i :: 0 <= i < |ls| ==> BlockAt(h, ls[i]).Some? && LogLocation(ls[i]) && CollectionOf(ls[i]) in ks)
    && (forall i, j :: 0 <= i < j < |ls| ==> ls[i] != ls[j])
    && (forall l :: BlockAt(h, l).Some? && CollectionOf(l) in ks ==> l in ls)
  }

  lemma JoinLists(h: Holdings, a: seq<Location>, b: seq<Location>, s: set<Collection>, t: set<Collection>)
    requires ListsIn(h, a, s) && ListsIn(h, b, t) && s !! t
    ensures ListsIn(h, a + b, s + t)
  {
    hide BlockAt, CollectionOf, LogLocation;
  }

  lemma UnderCounts(h: Holdings, ls: seq<Location>, k: Collection, keys: set<string>)
    requires ListsUnder(h, ls, k, keys)
    requires (k == Sections && keys == h.sections.Keys) || (k == Extensions && keys == h.extensions.Keys)
             || (k == History && keys == h.superseded.Keys)
    ensures ListsIn(h, ls, {k})
  {
  }

  lemma LogCounts(h: Holdings, ls: seq<Location>, log: Collection)
    requires log in LOGS && IsLog(h, log, ls)
    ensures ListsIn(h, ls, {log})
  {
    forall l | BlockAt(h, l).Some? && CollectionOf(l) in {log}
      ensures l in ls
    {
      assert ls[l.index] == l;
    }
  }

  lemma AllCollections(h: Holdings, ls: seq<Location>)
    requires ListsIn(h, ls, {Sections, Pipeline, Calculations, Scenarios, Extensions} + {History})
    ensures Lists(h, ls)
  {
  }

  // ----- The encoder -----

  /** The four scopes of a block as rows. */
  method EncodeBlock(c: Codec, ref: string, b: Block) returns (values: seq<ValueRow>)
    ensures values == BlockValues(c, ref, b)
  {
    values := [];
    for n := 0 to |SCOPES|
      invariant values == ScopesUpTo(c, ref, b, n)
    {
      var rows := FlattenRows(c, Object(ScopeOf(b, SCOPES[n])), "");
      values := values + seq(|rows|, k requires 0 <= k < |rows| => ValueRow(ref, SCOPES[n], rows[k]));
    }
    AllScopes(c, ref, b);
  }

  ghost function ScopesUpTo(c: Codec, ref: string, b: Block, n: nat): seq<ValueRow>
    requires n <= |SCOPES|
  {
    if n == 0 then [] else ScopesUpTo(c, ref, b, n - 1) + ScopeRows(c, ref, SCOPES[n - 1], ScopeOf(b, SCOPES[n - 1]))
  }

  lemma AllScopes(c: Codec, ref: string, b: Block)
    ensures ScopesUpTo(c, ref, b, |SCOPES|) == BlockValues(c, ref, b)
  {
    hide ScopeRows;
    assert ScopesUpTo(c, ref, b, 1) == ScopeRows(c, ref, Annotation, b.annotation);
    assert ScopesUpTo(c, ref, b, 2) == ScopesUpTo(c, ref, b, 1) + ScopeRows(c, ref, Meta, b.meta);
    assert ScopesUpTo(c, ref, b, 3) == ScopesUpTo(c, ref, b, 2) + ScopeRows(c, ref, Content, b.content);
  }

  /** The block, value and prose tables, block by block. */
  method EncodeBlocks(c: Codec, h: Holdings, ls: seq<Location>)
    returns (blocks: seq<BlockRow>, values: seq<ValueRow>, prose: seq<ProseRow>)
    requires forall k :: 0 <= k < |ls| ==> BlockAt(h, ls[k]).Some?
    ensures blocks == BlockTable(c, h, ls) && values == ValueTable(c, h, ls) && prose == ProseTable(c, h, ls)
  {
    hide BlockAt, RefOf, RowAt, BlockValues, ProseTable;
    blocks, values, prose := [], [], [];
    NoProse(c, h);
    for n := 0 to |ls|
      invariant blocks == BlockTable(c, h, ls[..n]) && values == ValueTable(c, h, ls[..n])
      invariant prose == ProseTable(c, h, ls[..n])
    {
      var l := ls[n];
      assert ls[..n + 1][..n] == ls[..n];
      var rows := EncodeBlock(c, RefOf(l), BlockAt(h, l).value);
      blocks, values := blocks + [RowAt(c, h, l)], values + rows;
      ProseNext(c, h, ls, n);
      if HasProse(h, l) {
        prose := prose + [ProseRowAt(c, h, l)];
      }
    }
    assert ls[..|ls|] == ls;
  }

  lemma NoProse(c: Codec, h: Holdings)
    ensures forall ls: seq<Location> :: ProseTable(c, h, ls[..0]) == []
  {
    forall ls: seq<Location>
      ensures ProseTable(c, h, ls[..0]) == []
    {
      assert WithProse(h, ls[..0]) == [];
    }
  }

  lemma ProseNext(c: Codec, h: Holdings, ls: seq<Location>, n: nat)
    requires n < |ls|
    ensures ProseTable(c, h, ls[..n + 1]) == ProseTable(c, h, ls[..n]) + if HasProse(h, ls[n])
            then [ProseRowAt(c, h, ls[n])] else []
  {
    WithProseNext(h, ls, n);
    ProseTableAt(c, h, ls[..n]);
    ProseTableAt(c, h, ls[..n + 1]);
    hide *;
  }

  lemma WithProseNext(h: Holdings, ls: seq<Location>, n: nat)
    requires n < |ls|
    ensures WithProse(h, ls[..n + 1]) == WithProse(h, ls[..n]) + if HasProse(h, ls[n]) then [ls[n]] else []
  {
    assert ls[..n + 1][..n] == ls[..n];
    hide HasProse;
  }

  lemma ProseTableAt(c: Codec, h: Holdings, ls: seq<Location>)
    ensures |ProseTable(c, h, ls)| == |WithProse(h, ls)|
    ensures forall k :: 0 <= k < |WithProse(h, ls)| ==>
              HasProse(h, WithProse(h, ls)[k]) && ProseTable(c, h, ls)[k] == ProseRowAt(c, h, WithProse(h, ls)[k])
  {
    ProseListed(h, ls);
    hide HasProse, ProseRowAt;
    assert forall k :: 0 <= k < |WithProse(h, ls)| ==> WithProse(h, ls)[k] in WithProse(h, ls);
  }

  /** The checks on blocks and entries, over the listing of the blocks. */
  method CheckHoldings(host: Host, h: Holdings) returns (ok: bool)
    requires h.logs.Keys == LOGS
    ensures ok <==> HoldingsValid(host, h)
  {
    var ls := ListBlocks(h);
    hide BlockValid, BlockAt, SectionAt, LogLocation, ExtensionValid;
    for n := 0 to |ls|
      invariant forall k :: 0 <= k < n ==> BlockValid(host, SectionAt(h, ls[k]), BlockAt(h, ls[k]).value)
    {
      if !BlockValid(host, SectionAt(h, ls[n]), BlockAt(h, ls[n]).value) {
        return false;
      }
    }
    forall l | BlockAt(h, l).Some?
      ensures BlockValid(host, SectionAt(h, l), BlockAt(h, l).value)
    {
      assert l in ls;
    }
    return (forall s :: s in h.sections && h.sections[s].Variants? ==> h.sections[s].peers != map[])
      && (forall s :: s in h.extensions ==> ExtensionValid(host, s, h.extensions[s]));
  }

  /** The admission of a model, before its digest is compared. */
  method CheckModel(host: Host, m: Model) returns (ok: bool)
    ensures ok <==> Valid(host, m)
  {
    hide OuterValid, HoldingsValid;
    if m.holdings.logs.Keys != LOGS || !OuterValid(host, m) {
      return false;
    }
    ok := CheckHoldings(host, m.holdings);
  }

  /** The tables of an admitted model; other models are refused. */
  method EncodeModel(host: Host, m: Model) returns (t: Option<Tables>, ghost ls: seq<Location>)
    ensures t.Some? <==> Valid(host, m)
    ensures t.Some? ==>
              && Lists(m.holdings, ls) && TextAt(m.frontmatter, "deal_id").Some?
                  && TextAt(m.frontmatter, "deal_name").Some?
              && t.value == Encoded(host, m, ls)
  {
    ls := [];
    var ok := CheckModel(host, m);
    if !ok {
      return None, ls;
    }
    ValidHoldings(host, m);
    hide Lists, TextAt, BlockTable, ValueTable, ProseTable, EmptyPaths, Flatten, Digest, VariantToken, EmptyItems;
    hide Valid;
    var c := host.codec;
    var listed := ListBlocks(m.holdings);
    ls := listed;
    ListedBlocks(m.holdings, listed);
    var blocks, values, prose := EncodeBlocks(c, m.holdings, listed);
    var frontmatter := FlattenRows(c, Object(m.frontmatter), "");
    var empty := EmptyNames(m.holdings);
    t := Some(Tables([DocumentRow(VariantToken(c, m.generatedAt), VariantToken(c, m.generator), Digest(host, m),
                                  c.dump(Text(TextAt(m.frontmatter, "deal_id").value)),
                                  c.dump(Text(TextAt(m.frontmatter, "deal_name").value)),
                                  c.dump(Object(m.extra)), c.dump(Array(EmptyItems(empty))))],
                     frontmatter, blocks, values, prose, Digest(host, m)));
  }

  lemma ListedBlocks(h: Holdings, ls: seq<Location>)
    requires Lists(h, ls)
    ensures forall k :: 0 <= k < |ls| ==> BlockAt(h, ls[k]).Some?
  {
    hide BlockAt, LogLocation;
  }

  method EmptyNames(h: Holdings) returns (paths: seq<string>)
    ensures paths == EmptyPaths(h)
  {
    hide SortedKeys, Pointer, Name;
    paths := SortNames(set s | s in h.superseded && h.superseded[s] == [] :: Pointer([Name(History), s]));
  }

  // ----- The decoder -----

  /** The received descriptors are compared with those of the rebuilt model. */
  method CheckDescriptors(c: Codec, h: Holdings, rows: seq<BlockRow>) returns (ok: bool)
    requires h.logs.Keys == LOGS
    ensures ok <==> DescriptorsAgree(c, h, rows)
  {
    var ls := ListBlocks(h);
    ok := multiset(BlockTable(c, h, ls)) == multiset(rows);
    if DescriptorsAgree(c, h, rows) {
      ghost var other: seq<Location> :| Lists(h, other) && multiset(BlockTable(c, h, other)) == multiset(rows);
      SameTable(c, h, ls, other);
    }
    hide Lists, BlockTable;
  }

  /** Every listing gives the same table, up to order. */
  lemma SameTable(c: Codec, h: Holdings, a: seq<Location>, b: seq<Location>)
    requires Lists(h, a) && Lists(h, b)
    ensures multiset(BlockTable(c, h, a)) == multiset(BlockTable(c, h, b))
  {
    hide *;
    TableCovers(c, h, a);
    TableCovers(c, h, b);
    CoversSame(c, h, BlockTable(c, h, a), BlockTable(c, h, b));
  }

  lemma CoversSame(c: Codec, h: Holdings, a: seq<BlockRow>, b: seq<BlockRow>)
    requires Covers(c, h, a) && Covers(c, h, b)
    ensures multiset(a) == multiset(b)
  {
    DistinctRows(a);
    DistinctRows(b);
    hide BlockAt, RefOf, RowAt, LogLocation;
    forall row: BlockRow
      ensures multiset(a)[row] == multiset(b)[row]
    {
      assert row in a <==> exists l :: IsRowOf(c, h, row, l);
      assert row in b <==> exists l :: IsRowOf(c, h, row, l);
      hide Covers, IsRowOf;
      DistinctCount(a, row);
      DistinctCount(b, row);
      assert row in multiset(a) <==> row in a;
      assert row in multiset(b) <==> row in b;
    }
  }

  /** The decoder: every check in turn, then the model. */
  method DecodeTables(host: Host, t: Tables) returns (r: Result<Model, Refusal>)
    ensures r == Decode(host, t)
  {
    hide Unflatten, TextAt, ReadVariant, ReadText, ReadObject, ReadEmpty, StartEmpty, ReadProse, AllUsed, Orderable;
    hide SortRows, PlaceRows;
    hide DescriptorsAgree, RedumpedAll, Valid, Digest, ScopesKnown;
    var c := host.codec;
    if |t.document| != 1 {
      return Failure(Cardinality);
    }
    var doc := t.document[0];
    var root := UnflattenRows(c, t.frontmatter);
    if root.None? || !root.value.Object? {
      return Failure(BadFrontmatter);
    }
    var frontmatter := root.value.members;
    var generatedAt, generator := ReadVariant(c, doc.generatedAt), ReadVariant(c, doc.generator);
    var extra, empty := ReadObject(c, doc.extra), ReadEmpty(c, doc.empty);
    if generatedAt.None? || generator.None? || extra.None? || empty.None? {
      return Failure(BadDocument);
    }
    if extra.value.Keys * RESERVED != {} {
      return Failure(OuterOverlap);
    }
    if ReadText(c, doc.dealId).None? || TextAt(frontmatter, "deal_id") != ReadText(c, doc.dealId)
       || ReadText(c, doc.dealName).None? || TextAt(frontmatter, "deal_name") != ReadText(c, doc.dealName) {
      return Failure(FrontmatterEcho);
    }
    var start := StartEmpty(empty.value);
    if start.None? {
      return Failure(BadEmpty);
    }
    if !ScopesKnown(t) {
      return Failure(UnknownCell);
    }
    var prose := ReadProseTable(c, t.prose);
    if prose.None? {
      return Failure(BadProse);
    }
    if !Orderable(c, t.blocks) {
      return Failure(BadDescriptor);
    }
    var rows := SortRows(c, t.blocks);
    SortKeepsRows(c, t.blocks);
    var holdings := PlaceBlocks(c, t, prose.value, start.value, empty.value, rows);
    if holdings.Failure? {
      return Failure(holdings.error);
    }
    var m := Model(frontmatter, holdings.value, generatedAt.value, generator.value, Some(doc.digest), extra.value);
    if !AllUsed(t, prose.value) {
      return Failure(UnusedRows);
    }
    var admitted := CheckModel(host, m);
    if !admitted {
      return Failure(Invalid);
    }
    ValidHoldings(host, m);
    var agreed := CheckDescriptors(c, holdings.value, RedumpedAll(c, rows));
    if !agreed {
      return Failure(DescriptorDisagreement);
    }
    if t.manifestDigest != doc.digest || Digest(host, m) != doc.digest {
      return Failure(DigestDisagreement);
    }
    return Success(m);
  }

  // ----- One block or a map of variants -----

  predicate Scalar(v: Json) {
    v.Text? || v.Number? || v.Bool?
  }

  predicate IsEnvelopeBlock(v: Json) {
    && v.Object? && "annotation" in v.members && v.members["annotation"].Object?
    && var annotation := v.members["annotation"].members;
    && "section" in annotation && annotation["section"].Text?
    && (forall k :: k in annotation ==> Scalar(annotation[k]))
    && "content" in v.members && v.members["content"].Object?
  }

  lemma KeysApart()
    ensures "annotation" != "content" && "annotation" != "prose" && "content" != "prose"
  {
    assert |"annotation"| == 10 && |"content"| == 7 && |"prose"| == 5;
  }

  lemma BlockMembers(b: Block)
    ensures BlockJson(b).Object?
    ensures var members := BlockJson(b).members;
            && "annotation" in members && members["annotation"] == Object(b.annotation)
            && "content" in members && members["content"].Object?
  {
    KeysApart();
  }

  /** A section entry is told apart by its shape alone: a block is one, a map of blocks never is. */
  lemma EntryShape(host: Host, section: string, e: Entry)
    requires e.Single? ==> BlockValid(host, section, e.block)
    ensures IsEnvelopeBlock(EntryJson(e)) <==> e.Single?
  {
    match e
    case Single(b) =>
      BlockMembers(b);
      hide BlockJson;
    case Variants(peers) =>
      if "annotation" in peers {
        BlockMembers(peers["annotation"]);
        hide BlockJson;
        var annotation := EntryJson(e).members["annotation"].members;
        assert "annotation" in annotation && !Scalar(annotation["annotation"]);
      }
  }
}
