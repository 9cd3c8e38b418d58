/**
 What the semantic digest covers: every member of every block stands in the digested value at the
 place the block's reference names, the value determines the model, and so do equal digests.
 */
module BundleDigest {
  import opened Common
  import opened DecimalText
  import opened Json
  import opened Cells = Flatten
  import opened Bundle
  import opened BundleAccepted

  // ----- One block -----

  /**
   The annotation, the content with `_meta` among it, the prose if any, and the other members of a
   block, and nothing else.
   */
  ghost predicate ShowsBlock(v: Json, b: Block) {
    && v.Object?
    && "annotation" in v.members && v.members["annotation"] == Object(b.annotation)
    && "content" in v.members && ShowsContent(v.members["content"], b)
    && ("prose" in v.members <==> b.prose.Some?)
    && (b.prose.Some? ==> v.members["prose"] == Text(b.prose.value))
    && forall k :: k != "annotation" && k != "content" && k != "prose" ==>
         (k in v.members <==> k in b.extra) && (k in b.extra ==> v.members[k] == b.extra[k])
  }

  ghost predicate ShowsContent(v: Json, b: Block) {
    && v.Object? && "_meta" in v.members && v.members["_meta"] == Object(b.meta)
    && forall k :: k != "_meta" ==>
        (k in v.members <==> k in b.content) && (k in b.content ==> v.members[k] == b.content[k])
  }

  /** What block validity asks of the names. */
  predicate NamesFree(b: Block) {
    "_meta" !in b.content && FreeOf(b.extra)
  }

  lemma BlockShown(b: Block)
    requires NamesFree(b)
    ensures ShowsBlock(BlockJson(b), b)
  {
    KeysApart();
    BlockMembers(b);
    assert BlockJson(b).members["content"] == Object(b.content["_meta" := Object(b.meta)]);
  }

  /** A shown block is read off the value. */
  lemma ShownOnce(v: Json, a: Block, b: Block)
    requires NamesFree(a) && NamesFree(b) && ShowsBlock(v, a) && ShowsBlock(v, b)
    ensures a == b
  {
    assert a.annotation == b.annotation && a.meta == b.meta;
    SameContent(a, b, v.members["content"]);
    SameExtra(a, b, v);
  }

  lemma SameContent(a: Block, b: Block, v: Json)
    requires NamesFree(a) && NamesFree(b) && ShowsContent(v, a) && ShowsContent(v, b)
    ensures a.content == b.content
  {
    assert forall k :: k in a.content <==> k in b.content;
  }

  lemma SameExtra(a: Block, b: Block, v: Json)
    requires NamesFree(a) && NamesFree(b) && ShowsBlock(v, a) && ShowsBlock(v, b)
    ensures a.extra == b.extra
  {
    hide ShowsContent;
    assert forall k :: k in a.extra <==> k in b.extra;
  }

  lemma BlockInjective(a: Block, b: Block)
    requires NamesFree(a) && NamesFree(b) && BlockJson(a) == BlockJson(b)
    ensures a == b
  {
    hide *;
    BlockShown(a);
    BlockShown(b);
    ShownOnce(BlockJson(a), a, b);
  }

  // ----- The members of the model -----

  lemma OuterNames()
    ensures "frontmatter" !in {"sections", "pipeline_log", "custom_calculations", "custom_scenarios", "extensions",
            "superseded"}
    ensures "sections" !in {"pipeline_log", "custom_calculations", "custom_scenarios", "extensions", "superseded"}
    ensures "pipeline_log" !in {"custom_calculations", "custom_scenarios", "extensions", "superseded"}
    ensures "custom_calculations" !in {"custom_scenarios", "extensions", "superseded"}
    ensures "custom_scenarios" !in {"extensions", "superseded"} && "extensions" != "superseded"
  {
    assert |"frontmatter"| == 11 && |"sections"| == 8 && |"pipeline_log"| == 12 && |"custom_calculations"| == 19;
    assert |"custom_scenarios"| == 16 && "extensions"[0] == 'e' && "superseded"[0] == 's';
    assert |"extensions"| == 10 && |"superseded"| == 10;
  }

  /** Every stated part of the model stands under its own name, and the other members beside them. */
  lemma OuterMembers(extra: Members, f: Json, s: Json, logs: (Json, Json, Json), e: Json, h: Json)
    requires extra.Keys !! RESERVED
    ensures var o := Outer(extra, f, s, logs, e, h);
            && {"frontmatter", "sections", "extensions", "superseded"} <= o.Keys
            && {"pipeline_log", "custom_calculations", "custom_scenarios"} <= o.Keys
            && o["frontmatter"] == f && o["sections"] == s && o["extensions"] == e && o["superseded"] == h
            && o["pipeline_log"] == logs.0 && o["custom_calculations"] == logs.1 && o["custom_scenarios"] == logs.2
    ensures var o := Outer(extra, f, s, logs, e, h);
            forall k :: k !in RESERVED ==> (k in o <==> k in extra) && (k in extra ==> o[k] == extra[k])
  {
    OuterNames();
  }

  /** Frontmatter and other members are digested as they are. */
  lemma DigestedMembers(m: Model)
    requires m.extra.Keys !! RESERVED
    ensures At(ModelJson(m), ["frontmatter"]) == Some(Object(m.frontmatter))
    ensures forall k :: k !in RESERVED ==> At(ModelJson(m), [k]) == if k in m.extra then Some(m.extra[k]) else None
  {
    var v := ModelJson(m);
    OuterOf(m);
    hide ModelJson, RESERVED;
    AtOnly(v.members, "frontmatter");
    forall k | k !in RESERVED
      ensures At(v, [k]) == if k in m.extra then Some(m.extra[k]) else None
    {
      AtOnly(v.members, k);
    }
  }

  lemma AtOnly(members: Members, k: string)
    ensures At(Object(members), [k]) == if k in members then Some(members[k]) else None
  {
    AtMember(members, k, []);
    assert [k] + [] == [k];
    if k in members {
      assert At(members[k], []) == Some(members[k]);
    }
    hide At;
  }

  /** The parts of the digested value. */
  lemma OuterOf(m: Model)
    requires m.extra.Keys !! RESERVED
    ensures ModelJson(m).Object?
    ensures var o, h := ModelJson(m).members, m.holdings;
            && {"frontmatter", "sections", "extensions", "superseded"} <= o.Keys
            && {"pipeline_log", "custom_calculations", "custom_scenarios"} <= o.Keys
            && o["frontmatter"] == Object(m.frontmatter) && o["sections"] == Object(SectionsJson(h.sections))
            && o["extensions"] == Object(ExtensionsJson(h.extensions))
            && o["superseded"] == Object(HistoryJson(h.superseded)) && o["pipeline_log"] == LogJson(h, Pipeline)
            && o["custom_calculations"] == LogJson(h, Calculations) && o["custom_scenarios"] == LogJson(h, Scenarios)
    ensures var o := ModelJson(m).members;
            forall k :: k !in RESERVED ==> (k in o <==> k in m.extra) && (k in m.extra ==> o[k] == m.extra[k])
  {
    var h := m.holdings;
    OuterMembers(m.extra, Object(m.frontmatter), Object(SectionsJson(h.sections)),
        (LogJson(h, Pipeline), LogJson(h, Calculations), LogJson(h, Scenarios)), Object(ExtensionsJson(h.extensions)),
        Object(HistoryJson(h.superseded)));
    hide Outer, SectionsJson, ExtensionsJson, HistoryJson, LogJson, RESERVED;
  }

  // ----- Every block at its place -----

  lemma AtTwo(members: Members, k: string, path: Path)
    requires k in members
    ensures At(Object(members), [k] + path) == At(members[k], path)
  {
    AtMember(members, k, path);
    hide At;
  }

  lemma SectionDigested(h: Holdings, l: Location)
    requires BlockAt(h, l).Some? && (l.AtSection? || l.AtVariant?)
    ensures At(Object(SectionsJson(h.sections)), PathOf(l)[1..]) == Some(BlockJson(BlockAt(h, l).value))
  {
    hide BlockJson, At, Name;
    var v := SectionsJson(h.sections);
    match l
    case AtSection(s) =>
      assert PathOf(l)[1..] == [s];
      AtOnly(v, s);
    case AtVariant(s, n) =>
      assert PathOf(l)[1..] == [s] + [n];
      AtTwo(v, s, [n]);
      AtOnly(v[s].members, n);
  }

  lemma ListDigested(blocks: seq<Block>, i: nat)
    requires i < |blocks|
    ensures At(ListJson(blocks), [Dec(i)]) == Some(BlockJson(blocks[i]))
  {
    hide BlockJson, Dec;
    AtIndex(ListJson(blocks).items, i, []);
    assert [Dec(i)] + [] == [Dec(i)];
    AtNothing(BlockJson(blocks[i]));
    hide At;
  }

  lemma AtNothing(v: Json)
    ensures At(v, []) == Some(v)
  {
  }

  lemma HistoryDigested(h: Holdings, l: Location)
    requires BlockAt(h, l).Some? && l.AtHistory?
    ensures At(Object(HistoryJson(h.superseded)), PathOf(l)[1..]) == Some(BlockJson(BlockAt(h, l).value))
  {
    hide BlockJson, At, Name, Dec, ListJson;
    assert PathOf(l)[1..] == [l.section] + [Dec(l.index)];
    AtTwo(HistoryJson(h.superseded), l.section, [Dec(l.index)]);
    ListDigested(h.superseded[l.section], l.index);
  }

  lemma ExtensionNames()
    ensures "mode" != "block" && "mode" != "blocks" && "block" != "blocks" && "variant" != "block"
  {
    assert |"mode"| == 4 && |"block"| == 5 && |"blocks"| == 6 && |"variant"| == 7;
  }

  lemma ExtensionDigested(h: Holdings, l: Location)
    requires BlockAt(h, l).Some? && (l.AtExtension? || l.AtPeer?)
    ensures At(Object(ExtensionsJson(h.extensions)), PathOf(l)[1..]) == Some(BlockJson(BlockAt(h, l).value))
  {
    ExtensionNames();
    hide BlockJson, At, Name, Dec;
    var v := ExtensionsJson(h.extensions);
    match l
    case AtExtension(s) =>
      assert PathOf(l)[1..] == [s] + ["block"];
      AtTwo(v, s, ["block"]);
      AtOnly(v[s].members, "block");
    case AtPeer(s, i) =>
      assert PathOf(l)[1..] == [s] + (["blocks"] + ([Dec(i)] + ["block"]));
      var peers := h.extensions[s].peers;
      AtTwo(v, s, ["blocks"] + ([Dec(i)] + ["block"]));
      AtTwo(v[s].members, "blocks", [Dec(i)] + ["block"]);
      AtIndex(v[s].members["blocks"].items, i, ["block"]);
      AtOnly(PeerJson(peers[i]).members, "block");
  }

  /**
   Every block is digested whole: at the path of its reference the digested value holds its
   annotation, its content and metadata, its prose exactly when it has any, and its other members.
   */
  lemma DigestedBlock(m: Model, l: Location)
    requires m.extra.Keys !! RESERVED && m.holdings.logs.Keys == LOGS && LogLocation(l)
    requires BlockAt(m.holdings, l).Some? && NamesFree(BlockAt(m.holdings, l).value)
    ensures At(ModelJson(m), PathOf(l)).Some?
    ensures ShowsBlock(At(ModelJson(m), PathOf(l)).value, BlockAt(m.holdings, l).value)
  {
    hide *;
    BlockShown(BlockAt(m.holdings, l).value);
    DigestedAt(m, l);
  }

  lemma DigestedAt(m: Model, l: Location)
    requires m.extra.Keys !! RESERVED && m.holdings.logs.Keys == LOGS && LogLocation(l) && BlockAt(m.holdings, l).Some?
    ensures At(ModelJson(m), PathOf(l)) == Some(BlockJson(BlockAt(m.holdings, l).value))
  {
    var h, o := m.holdings, ModelJson(m).members;
    OuterOf(m);
    var k := Name(CollectionOf(l));
    assert PathOf(l) == [k] + PathOf(l)[1..];
    NameDigested(m, CollectionOf(l), l);
    hide ModelJson, BlockJson, BlockAt, At, Name, PathOf, RESERVED, SectionsJson, ExtensionsJson, HistoryJson, LogJson;
    AtTwo(o, k, PathOf(l)[1..]);
    if l.AtLog? {
      LogDigested(h, l);
    } else if l.AtHistory? {
      HistoryDigested(h, l);
    } else if l.AtSection? || l.AtVariant? {
      SectionDigested(h, l);
    } else {
      ExtensionDigested(h, l);
    }
  }

  lemma LogDigested(h: Holdings, l: Location)
    requires BlockAt(h, l).Some? && l.AtLog?
    ensures At(LogJson(h, l.log), PathOf(l)[1..]) == Some(BlockJson(BlockAt(h, l).value))
  {
    hide BlockJson, At, Name, Dec, ListJson;
    assert PathOf(l)[1..] == [Dec(l.index)];
    ListDigested(h.logs[l.log], l.index);
  }

  /** The collection a place belongs to, under its name. */
  lemma NameDigested(m: Model, k: Collection, l: Location)
    requires m.extra.Keys !! RESERVED && k == CollectionOf(l) && LogLocation(l)
    ensures ModelJson(m).Object? && Name(k) in ModelJson(m).members
    ensures var v, h := ModelJson(m).members[Name(k)], m.holdings;
            && (l.AtLog? ==> v == LogJson(h, l.log))
            && (l.AtHistory? ==> v == Object(HistoryJson(h.superseded)))
            && (l.AtSection? || l.AtVariant? ==> v == Object(SectionsJson(h.sections)))
            && (l.AtExtension? || l.AtPeer? ==> v == Object(ExtensionsJson(h.extensions)))
  {
    OuterOf(m);
    hide ModelJson, SectionsJson, ExtensionsJson, HistoryJson, LogJson, RESERVED;
  }

  // ----- The digested value determines the model -----

  ghost predicate AllNamesFree(h: Holdings) {
    forall l :: BlockAt(h, l).Some? ==> NamesFree(BlockAt(h, l).value)
  }

  lemma ListInjective(a: seq<Block>, b: seq<Block>)
    requires ListJson(a) == ListJson(b)
    requires (forall i :: 0 <= i < |a| ==> NamesFree(a[i])) && forall i :: 0 <= i < |b| ==> NamesFree(b[i])
    ensures a == b
  {
    hide BlockJson, NamesFree;
    var x, y := ListJson(a).items, ListJson(b).items;
    assert |x| == |a| && |y| == |b|;
    forall i | 0 <= i < |a|
      ensures a[i] == b[i]
    {
      assert x[i] == BlockJson(a[i]) && y[i] == BlockJson(b[i]);
      BlockInjective(a[i], b[i]);
    }
  }

  /** Entries that may stand in a section: a map of variants is never taken for a block. */
  ghost predicate EntryFree(host: Host, s: string, e: Entry) {
    match e
    case Single(b) => BlockValid(host, s, b)
    case Variants(peers) => forall v :: v in peers ==> BlockValid(host, s, peers[v])
  }

  lemma ValidFree(host: Host, s: string, b: Block)
    requires BlockValid(host, s, b)
    ensures NamesFree(b)
  {
  }

  lemma EntryInjective(host: Host, s: string, a: Entry, b: Entry)
    requires EntryFree(host, s, a) && EntryFree(host, s, b) && EntryJson(a) == EntryJson(b)
    ensures a == b
  {
    EntryShape(host, s, a);
    EntryShape(host, s, b);
    hide BlockValid, BlockJson, IsEnvelopeBlock;
    match a
    case Single(x) =>
      ValidFree(host, s, x);
      ValidFree(host, s, b.block);
      BlockInjective(x, b.block);
    case Variants(peers) =>
      VariantsInjective(host, s, peers, b.peers);
  }

  lemma VariantsInjective(host: Host, s: string, a: map<string, Block>, b: map<string, Block>)
    requires EntryJson(Variants(a)) == EntryJson(Variants(b))
    requires EntryFree(host, s, Variants(a)) && EntryFree(host, s, Variants(b))
    ensures a == b
  {
    hide BlockValid, BlockJson;
    var x, y := EntryJson(Variants(a)).members, EntryJson(Variants(b)).members;
    assert a.Keys == x.Keys && b.Keys == y.Keys;
    forall v | v in a
      ensures a[v] == b[v]
    {
      assert x[v] == BlockJson(a[v]) && y[v] == BlockJson(b[v]);
      ValidFree(host, s, a[v]);
      ValidFree(host, s, b[v]);
      BlockInjective(a[v], b[v]);
    }
  }

  lemma SectionsInjective(host: Host, a: map<string, Entry>, b: map<string, Entry>)
    requires SectionsJson(a) == SectionsJson(b)
    requires (forall s :: s in a ==> EntryFree(host, s, a[s])) && forall s :: s in b ==> EntryFree(host, s, b[s])
    ensures a == b
  {
    hide EntryJson, EntryFree;
    var x, y := SectionsJson(a), SectionsJson(b);
    assert a.Keys == x.Keys && b.Keys == y.Keys;
    forall s | s in a
      ensures a[s] == b[s]
    {
      assert x[s] == EntryJson(a[s]) && y[s] == EntryJson(b[s]);
      EntryInjective(host, s, a[s], b[s]);
    }
  }

  ghost predicate ExtensionFree(e: Extension) {
    match e
    case One(b) => NamesFree(b)
    case Many(peers) => forall i :: 0 <= i < |peers| ==> NamesFree(peers[i].block)
  }

  lemma ModesApart()
    ensures "single" != "variants"
  {
    assert |"single"| == 6 && |"variants"| == 8;
  }

  lemma PeerInjective(a: Peer, b: Peer)
    requires PeerJson(a) == PeerJson(b) && NamesFree(a.block) && NamesFree(b.block)
    ensures a == b
  {
    ExtensionNames();
    hide BlockJson, NamesFree;
    var x, y := PeerJson(a).members, PeerJson(b).members;
    assert x["variant"] == (if a.variant.Some? then Text(a.variant.value) else Json.Null);
    assert y["variant"] == (if b.variant.Some? then Text(b.variant.value) else Json.Null);
    assert x["block"] == BlockJson(a.block) && y["block"] == BlockJson(b.block);
    BlockInjective(a.block, b.block);
  }

  lemma ExtensionInjective(a: Extension, b: Extension)
    requires ExtensionFree(a) && ExtensionFree(b) && ExtensionJson(a) == ExtensionJson(b)
    ensures a == b
  {
    ExtensionNames();
    ModesApart();
    hide BlockJson, NamesFree, PeerJson;
    var x, y := ExtensionJson(a).members, ExtensionJson(b).members;
    assert x["mode"] == Text(if a.One? then "single" else "variants");
    assert y["mode"] == Text(if b.One? then "single" else "variants");
    match a
    case One(p) =>
      assert x["block"] == BlockJson(p) && y["block"] == BlockJson(b.block);
      BlockInjective(p, b.block);
    case Many(peers) =>
      assert x["blocks"].items == seq(|peers|, i requires 0 <= i < |peers| => PeerJson(peers[i]));
      assert y["blocks"].items == seq(|b.peers|, i requires 0 <= i < |b.peers| => PeerJson(b.peers[i]));
      PeersInjective(peers, b.peers, x["blocks"].items);
  }

  lemma PeersInjective(a: seq<Peer>, b: seq<Peer>, items: seq<Json>)
    requires |items| == |a| == |b|
    requires forall i :: 0 <= i < |items| ==> items[i] == PeerJson(a[i]) && items[i] == PeerJson(b[i])
    requires forall i :: 0 <= i < |items| ==> NamesFree(a[i].block) && NamesFree(b[i].block)
    ensures a == b
  {
    hide PeerJson, NamesFree;
    forall i | 0 <= i < |a|
      ensures a[i] == b[i]
    {
      assert items[i] == PeerJson(a[i]);
      PeerInjective(a[i], b[i]);
    }
  }

  lemma ExtensionsInjective(a: map<string, Extension>, b: map<string, Extension>)
    requires ExtensionsJson(a) == ExtensionsJson(b)
    requires (forall s :: s in a ==> ExtensionFree(a[s])) && forall s :: s in b ==> ExtensionFree(b[s])
    ensures a == b
  {
    hide ExtensionJson, ExtensionFree;
    var x, y := ExtensionsJson(a), ExtensionsJson(b);
    assert a.Keys == x.Keys && b.Keys == y.Keys;
    forall s | s in a
      ensures a[s] == b[s]
    {
      assert x[s] == ExtensionJson(a[s]) && y[s] == ExtensionJson(b[s]);
      ExtensionInjective(a[s], b[s]);
    }
  }

  ghost predicate ListFree(blocks: seq<Block>) {
    forall i :: 0 <= i < |blocks| ==> NamesFree(blocks[i])
  }

  lemma HistoriesInjective(a: map<string, seq<Block>>, b: map<string, seq<Block>>)
    requires HistoryJson(a) == HistoryJson(b)
    requires (forall s :: s in a ==> ListFree(a[s])) && forall s :: s in b ==> ListFree(b[s])
    ensures a == b
  {
    hide ListJson, NamesFree;
    var x, y := HistoryJson(a), HistoryJson(b);
    assert a.Keys == x.Keys && b.Keys == y.Keys;
    forall s | s in a
      ensures a[s] == b[s]
    {
      assert x[s] == ListJson(a[s]) && y[s] == ListJson(b[s]);
      assert ListFree(a[s]) && ListFree(b[s]);
      ListInjective(a[s], b[s]);
    }
  }

  /** What validity says of the names, entry by entry. */
  ghost predicate HoldingsFree(host: Host, h: Holdings) {
    && h.logs.Keys == LOGS
    && (forall s :: s in h.sections ==> EntryFree(host, s, h.sections[s]))
    && (forall k :: k in h.logs ==> ListFree(h.logs[k]))
    && (forall s :: s in h.extensions ==> ExtensionFree(h.extensions[s]))
    && (forall s :: s in h.superseded ==> ListFree(h.superseded[s]))
  }

  lemma ValidHoldingsFree(host: Host, m: Model)
    requires Valid(host, m)
    ensures HoldingsFree(host, m.holdings) && m.extra.Keys !! RESERVED
  {
    var h := m.holdings;
    ValidHoldings(host, m);
    hide Valid, RESERVED, BlockValid;
    forall s | s in h.sections
      ensures EntryFree(host, s, h.sections[s])
    {
      SectionFree(host, h, s);
    }
    forall k | k in h.logs
      ensures ListFree(h.logs[k])
    {
      LogFree(host, h, k);
    }
    forall s | s in h.extensions
      ensures ExtensionFree(h.extensions[s])
    {
      PeersFree(host, h, s);
    }
    forall s | s in h.superseded
      ensures ListFree(h.superseded[s])
    {
      HistoryFree(host, h, s);
    }
    hide EntryFree, ListFree, ExtensionFree, BlockAt;
  }

  ghost predicate BlocksValid(host: Host, h: Holdings) {
    forall l :: BlockAt(h, l).Some? ==> BlockValid(host, SectionAt(h, l), BlockAt(h, l).value)
  }

  lemma SectionFree(host: Host, h: Holdings, s: string)
    requires BlocksValid(host, h) && s in h.sections
    ensures EntryFree(host, s, h.sections[s])
  {
    hide BlockValid;
    match h.sections[s]
    case Single(b) =>
      assert BlockAt(h, AtSection(s)) == Some(b);
    case Variants(peers) =>
      forall v | v in peers
        ensures BlockValid(host, s, peers[v])
      {
        assert BlockAt(h, AtVariant(s, v)) == Some(peers[v]);
      }
  }

  lemma LogFree(host: Host, h: Holdings, k: Collection)
    requires BlocksValid(host, h) && h.logs.Keys == LOGS && k in h.logs
    ensures ListFree(h.logs[k])
  {
    hide BlockValid;
    forall i | 0 <= i < |h.logs[k]|
      ensures NamesFree(h.logs[k][i])
    {
      assert BlockAt(h, AtLog(k, i)) == Some(h.logs[k][i]);
      ValidFree(host, SectionAt(h, AtLog(k, i)), h.logs[k][i]);
    }
  }

  lemma PeersFree(host: Host, h: Holdings, s: string)
    requires BlocksValid(host, h) && s in h.extensions
    ensures ExtensionFree(h.extensions[s])
  {
    hide BlockValid;
    match h.extensions[s]
    case One(b) =>
      assert BlockAt(h, AtExtension(s)) == Some(b);
      ValidFree(host, s, b);
    case Many(peers) =>
      forall i | 0 <= i < |peers|
        ensures NamesFree(peers[i].block)
      {
        assert BlockAt(h, AtPeer(s, i)) == Some(peers[i].block);
        ValidFree(host, s, peers[i].block);
      }
  }

  lemma HistoryFree(host: Host, h: Holdings, s: string)
    requires BlocksValid(host, h) && s in h.superseded
    ensures ListFree(h.superseded[s])
  {
    hide BlockValid;
    forall i | 0 <= i < |h.superseded[s]|
      ensures NamesFree(h.superseded[s][i])
    {
      assert BlockAt(h, AtHistory(s, i)) == Some(h.superseded[s][i]);
      ValidFree(host, s, h.superseded[s][i]);
    }
  }

  /** The same model, but for its generation time, its generator and its digest. */
  predicate SameContentAs(a: Model, b: Model) {
    a.frontmatter == b.frontmatter && a.holdings == b.holdings && a.extra == b.extra
  }

  /** Nothing of a valid model is lost in the digested value. */
  lemma DigestedOnce(host: Host, a: Model, b: Model)
    requires Valid(host, a) && Valid(host, b) && ModelJson(a) == ModelJson(b)
    ensures SameContentAs(a, b)
  {
    hide *;
    ValidHoldingsFree(host, a);
    ValidHoldingsFree(host, b);
    PartsSame(a, b);
    HoldingsInjective(host, a.holdings, b.holdings);
    ExtrasSame(a, b);
    SameParts(a, b);
  }

  lemma SameParts(a: Model, b: Model)
    requires a.frontmatter == b.frontmatter && a.holdings == b.holdings && a.extra == b.extra
    ensures SameContentAs(a, b)
  {
  }

  /** Equal digested values have equal parts. */
  lemma PartsSame(a: Model, b: Model)
    requires a.extra.Keys !! RESERVED && b.extra.Keys !! RESERVED && ModelJson(a) == ModelJson(b)
    ensures a.frontmatter == b.frontmatter && PartsAgree(a.holdings, b.holdings)
  {
    OuterOf(a);
    OuterOf(b);
    hide ModelJson, RESERVED, SectionsJson, ExtensionsJson, HistoryJson, LogJson;
  }

  predicate PartsAgree(a: Holdings, b: Holdings) {
    && SectionsJson(a.sections) == SectionsJson(b.sections)
        && ExtensionsJson(a.extensions) == ExtensionsJson(b.extensions)
    && HistoryJson(a.superseded) == HistoryJson(b.superseded) && LogJson(a, Pipeline) == LogJson(b, Pipeline)
    && LogJson(a, Calculations) == LogJson(b, Calculations) && LogJson(a, Scenarios) == LogJson(b, Scenarios)
  }

  lemma HoldingsInjective(host: Host, a: Holdings, b: Holdings)
    requires HoldingsFree(host, a) && HoldingsFree(host, b) && PartsAgree(a, b)
    ensures a == b
  {
    hide SectionsJson, ExtensionsJson, HistoryJson, LogJson, EntryFree, ListFree, ExtensionFree;
    SectionsInjective(host, a.sections, b.sections);
    ExtensionsInjective(a.extensions, b.extensions);
    HistoriesInjective(a.superseded, b.superseded);
    LogsInjective(host, a, b);
  }

  lemma LogsInjective(host: Host, a: Holdings, b: Holdings)
    requires HoldingsFree(host, a) && HoldingsFree(host, b)
    requires forall k :: k in LOGS ==> LogJson(a, k) == LogJson(b, k)
    ensures a.logs == b.logs
  {
    hide ListJson, NamesFree, EntryFree, ExtensionFree;
    forall k | k in LOGS
      ensures a.logs[k] == b.logs[k]
    {
      assert ListFree(a.logs[k]) && ListFree(b.logs[k]);
      assert LogJson(a, k) == ListJson(a.logs[k]) && LogJson(b, k) == ListJson(b.logs[k]);
      ListInjective(a.logs[k], b.logs[k]);
    }
  }

  lemma ExtrasSame(a: Model, b: Model)
    requires a.extra.Keys !! RESERVED && b.extra.Keys !! RESERVED && ModelJson(a) == ModelJson(b)
    ensures a.extra == b.extra
  {
    OuterOf(a);
    OuterOf(b);
    hide ModelJson, RESERVED, SectionsJson, ExtensionsJson, HistoryJson, LogJson;
    assert forall k :: k in a.extra <==> k in b.extra;
  }

  // ----- Equal digests -----

  lemma StorablePut(m: Members, k: string, v: Json)
    requires Storable(Object(m)) && Storable(v)
    ensures Storable(Object(m[k := v]))
  {
  }

  lemma BlockStorable(b: Block)
    requires StorableBlock(b)
    ensures Storable(BlockJson(b))
  {
    assert Storable(Object(b.annotation)) && Storable(Object(b.meta)) && Storable(Object(b.content));
    assert b.prose.Some? ==> Storable(Text(b.prose.value));
    hide Storable;
    StorablePut(b.content, "_meta", Object(b.meta));
    StorablePut(b.extra, "annotation", Object(b.annotation));
    var x := b.extra["annotation" := Object(b.annotation)];
    StorablePut(x, "content", Object(b.content["_meta" := Object(b.meta)]));
    if b.prose.Some? {
      StorablePut(x["content" := Object(b.content["_meta" := Object(b.meta)])], "prose", Text(b.prose.value));
    }
  }

  lemma OuterStorable(extra: Members, f: Json, s: Json, logs: (Json, Json, Json), e: Json, h: Json)
    requires Storable(Object(extra)) && Storable(f) && Storable(s) && Storable(e) && Storable(h)
    requires Storable(logs.0) && Storable(logs.1) && Storable(logs.2)
    ensures Storable(Object(Outer(extra, f, s, logs, e, h)))
  {
    var a := extra["envelope_version" := Text("2.0")];
    var b := a["format_version" := Text("3.0")];
    assert Storable(Text("2.0")) && Storable(Text("3.0"));
    hide Storable;
    StorablePut(extra, "envelope_version", Text("2.0"));
    StorablePut(a, "format_version", Text("3.0"));
    StorablePut(b, "frontmatter", f);
    var c := b["frontmatter" := f];
    StorablePut(c, "sections", s);
    StorablePut(c["sections" := s], "pipeline_log", logs.0);
    var d := c["sections" := s]["pipeline_log" := logs.0];
    StorablePut(d, "custom_calculations", logs.1);
    StorablePut(d["custom_calculations" := logs.1], "custom_scenarios", logs.2);
    var g := d["custom_calculations" := logs.1]["custom_scenarios" := logs.2];
    StorablePut(g, "extensions", e);
    StorablePut(g["extensions" := e], "superseded", h);
  }

  ghost predicate BlocksStorable(h: Holdings) {
    forall l :: BlockAt(h, l).Some? ==> StorableBlock(BlockAt(h, l).value)
  }

  lemma SectionsStorable(h: Holdings)
    requires BlocksStorable(h)
    ensures Storable(Object(SectionsJson(h.sections)))
  {
    hide StorableBlock, BlockJson;
    forall s | s in h.sections
      ensures Storable(EntryJson(h.sections[s]))
    {
      match h.sections[s]
      case Single(b) =>
        assert BlockAt(h, AtSection(s)) == Some(b);
        BlockStorable(b);
      case Variants(peers) =>
        forall v | v in peers
          ensures Storable(BlockJson(peers[v]))
        {
          assert BlockAt(h, AtVariant(s, v)) == Some(peers[v]);
          BlockStorable(peers[v]);
        }
    }
    hide EntryJson;
  }

  lemma ListStorable(blocks: seq<Block>)
    requires forall i :: 0 <= i < |blocks| ==> StorableBlock(blocks[i])
    ensures Storable(ListJson(blocks))
  {
    hide StorableBlock, BlockJson;
    forall i | 0 <= i < |blocks|
      ensures Storable(BlockJson(blocks[i]))
    {
      BlockStorable(blocks[i]);
    }
  }

  lemma LogStorable(h: Holdings, k: Collection)
    requires BlocksStorable(h) && k in LOGS
    ensures Storable(LogJson(h, k))
  {
    hide StorableBlock, BlockJson, ListJson;
    var blocks := if k in h.logs then h.logs[k] else [];
    forall i | 0 <= i < |blocks|
      ensures StorableBlock(blocks[i])
    {
      assert BlockAt(h, AtLog(k, i)) == Some(blocks[i]);
    }
    ListStorable(blocks);
  }

  lemma HistoryStorable(h: Holdings)
    requires BlocksStorable(h)
    ensures Storable(Object(HistoryJson(h.superseded)))
  {
    hide StorableBlock, BlockJson, ListJson;
    forall s | s in h.superseded
      ensures Storable(ListJson(h.superseded[s]))
    {
      forall i | 0 <= i < |h.superseded[s]|
        ensures StorableBlock(h.superseded[s][i])
      {
        assert BlockAt(h, AtHistory(s, i)) == Some(h.superseded[s][i]);
      }
      ListStorable(h.superseded[s]);
    }
  }

  lemma PeerStorable(p: Peer)
    requires StorableBlock(p.block)
    ensures Storable(PeerJson(p))
  {
    BlockStorable(p.block);
    hide BlockJson;
  }

  lemma ExtensionStorable(h: Holdings, s: string)
    requires BlocksStorable(h) && s in h.extensions
    ensures Storable(ExtensionJson(h.extensions[s]))
  {
    hide StorableBlock, BlockJson, PeerJson;
    match h.extensions[s]
    case One(b) =>
      assert BlockAt(h, AtExtension(s)) == Some(b);
      BlockStorable(b);
    case Many(peers) =>
      forall i | 0 <= i < |peers|
        ensures Storable(PeerJson(peers[i]))
      {
        assert BlockAt(h, AtPeer(s, i)) == Some(peers[i].block);
        PeerStorable(peers[i]);
      }
  }

  lemma ExtensionsStorable(h: Holdings)
    requires BlocksStorable(h)
    ensures Storable(Object(ExtensionsJson(h.extensions)))
  {
    hide StorableBlock, ExtensionJson;
    forall s | s in h.extensions
      ensures Storable(ExtensionJson(h.extensions[s]))
    {
      ExtensionStorable(h, s);
    }
  }

  /** What is digested can be written: every number of a valid model is finite. */
  lemma ModelStorable(host: Host, m: Model)
    requires Valid(host, m)
    ensures Storable(ModelJson(m)) && Nests(ModelJson(m), CELL_DEPTH)
  {
    ValidHoldings(host, m);
    ValidStorable(host, m);
    hide *;
    SectionsStorable(m.holdings);
    LogsStorable(m.holdings);
    ExtensionsStorable(m.holdings);
    HistoryStorable(m.holdings);
    DigestedStorable(m);
  }

  lemma LogsStorable(h: Holdings)
    requires BlocksStorable(h)
    ensures Storable(LogJson(h, Pipeline)) && Storable(LogJson(h, Calculations)) && Storable(LogJson(h, Scenarios))
  {
    hide BlocksStorable, LogJson;
    LogStorable(h, Pipeline);
    LogStorable(h, Calculations);
    LogStorable(h, Scenarios);
  }

  lemma ValidStorable(host: Host, m: Model)
    requires Valid(host, m)
    ensures BlocksStorable(m.holdings) && Storable(Object(m.frontmatter)) && Storable(Object(m.extra))
  {
    hide BlockAt, SectionAt, ExtensionValid, Storable, TextAt, ModelJson, Nests;
  }

  lemma DigestedStorable(m: Model)
    requires Storable(Object(m.frontmatter)) && Storable(Object(m.extra))
    requires var h := m.holdings;
             && Storable(Object(SectionsJson(h.sections))) && Storable(Object(ExtensionsJson(h.extensions)))
             && Storable(Object(HistoryJson(h.superseded))) && Storable(LogJson(h, Pipeline))
             && Storable(LogJson(h, Calculations)) && Storable(LogJson(h, Scenarios))
    ensures Storable(ModelJson(m))
  {
    hide Storable, SectionsJson, ExtensionsJson, HistoryJson, LogJson, Outer;
    var h := m.holdings;
    OuterStorable(m.extra, Object(m.frontmatter), Object(SectionsJson(h.sections)),
        (LogJson(h, Pipeline), LogJson(h, Calculations), LogJson(h, Scenarios)), Object(ExtensionsJson(h.extensions)),
        Object(HistoryJson(h.superseded)));
  }

  /** The hash tells the two digested texts apart, if they differ. */
  predicate Separates(host: Host, a: Model, b: Model) {
    var x, y := host.codec.dump(ModelJson(a)), host.codec.dump(ModelJson(b));
    host.sha(x) == host.sha(y) ==> x == y
  }

  /**
   Two valid models have the same digest exactly when they are the same up to the sign of zero, the
   generation time, the generator and the digest itself.
   */
  lemma EqualDigests(host: Host, a: Model, b: Model)
    requires host.codec.Faithful() && host.Unsigned() && Valid(host, a) && Valid(host, b) && Separates(host, a, b)
    ensures Digest(host, a) == Digest(host, b) <==> SameContentAs(NormalModel(a), NormalModel(b))
  {
    assert host.codec.Unsigned();
    if Digest(host, a) == Digest(host, b) {
      hide *;
      SameText(host, a, b);
      ModelJsonNormal(a);
      ModelJsonNormal(b);
      ValidNormal(host, a);
      ValidNormal(host, b);
      DigestedOnce(host, NormalModel(a), NormalModel(b));
    } else if SameContentAs(NormalModel(a), NormalModel(b)) {
      hide *;
      DigestNormal(host, a);
      DigestNormal(host, b);
      SameDigest(host, NormalModel(a), NormalModel(b));
    }
  }

  lemma SameDigest(host: Host, a: Model, b: Model)
    requires SameContentAs(a, b)
    ensures Digest(host, a) == Digest(host, b)
  {
    assert ModelJson(a) == ModelJson(b);
    hide ModelJson;
  }

  /** Equal texts are read back as one value. */
  lemma SameText(host: Host, a: Model, b: Model)
    requires host.codec.Faithful() && Valid(host, a) && Valid(host, b) && Separates(host, a, b)
    requires Digest(host, a) == Digest(host, b)
    ensures Normal(ModelJson(a)) == Normal(ModelJson(b))
  {
    ModelStorable(host, a);
    ModelStorable(host, b);
    hide ModelJson, Storable, Normal, Nests, Valid;
    var c := host.codec;
    assert c.load(c.dump(ModelJson(a))) == Some(Normal(ModelJson(a)));
    assert c.load(c.dump(ModelJson(b))) == Some(Normal(ModelJson(b)));
  }

  /** Two accepted bundles that state one digest carry the same model. */
  lemma OneDigestOneModel(host: Host, t: Tables, a: Model, u: Tables, b: Model)
    requires host.codec.Faithful() && host.Unsigned() && Decode(host, t) == Success(a) && Decode(host, u) == Success(b)
    requires t.manifestDigest == u.manifestDigest && Separates(host, a, b)
    ensures SameContentAs(NormalModel(a), NormalModel(b))
  {
    hide *;
    AcceptedDigest(host, t, a);
    AcceptedDigest(host, u, b);
    EqualDigests(host, a, b);
  }

  lemma AcceptedDigest(host: Host, t: Tables, m: Model)
    requires Decode(host, t) == Success(m)
    ensures Valid(host, m) && t.manifestDigest == Digest(host, m)
  {
    hide *;
    var prose, start, empty, ls := AcceptedPassed(host, t, m);
    PassedDigest(host, t, m, prose, start, empty, ls);
  }

  lemma PassedDigest(host: Host, t: Tables, m: Model, prose: map<string, string>, start: Holdings, empty: seq<string>,
      ls: seq<Location>)
    requires Passed(host, t, m, prose, start, empty, ls)
    ensures Valid(host, m) && t.manifestDigest == Digest(host, m)
  {
    hide Unflatten, TextAt, ReadVariant, ReadText, ReadObject, ReadEmpty, StartEmpty, ReadProse, AllUsed, SortRows;
    hide PlaceRows, RedumpedAll, Valid, Digest, ScopesKnown, Lists, BlockTable;
  }

  // ----- What the block table says -----

  /** A name as the block states it in its annotation. */
  function Stated(b: Block, key: string): Json {
    if key in b.annotation then b.annotation[key] else Json.Null
  }

  /** The row of an occupied place, told from its path and from the annotation of its block. */
  ghost predicate Describes(c: Codec, row: BlockRow, path: Path, b: Block) {
    && Parts(row.ref) == Some(path) && path != [] && path[0] == Name(row.collection)
    && row.section == c.dump(Stated(b, "section"))
    && (row.state == Superseded <==> path[0] == "superseded")
    && (path[0] == "sections" ==>
          |path| in {2, 3} && row.ordinal == "" && row.mode == NoMode
          && row.variant == c.dump(if |path| == 3 then Text(path[2]) else Stated(b, "variant")))
    && (path[0] == "extensions" ==>
          row.variant == c.dump(Stated(b, "variant"))
          && if |path| == 3 then path[2] == "block" && row.ordinal == "" && row.mode == SingleMode
             else |path| == 5 && path[2] == "blocks" && row.ordinal == path[3] && row.mode == VariantsMode)
    && (path[0] == "superseded" ==>
          |path| == 3 && row.ordinal == path[2] && row.mode == NoMode && row.variant == c.dump(Json.Null))
    && (path[0] in {"pipeline_log", "custom_calculations", "custom_scenarios"} ==>
          |path| == 2 && row.ordinal == path[1] && row.mode == NoMode && row.variant == c.dump(Json.Null))
  }

  lemma StatedSection(host: Host, m: Model, l: Location)
    requires Valid(host, m) && BlockAt(m.holdings, l).Some?
    ensures Stated(BlockAt(m.holdings, l).value, "section") == Text(SectionAt(m.holdings, l))
  {
    assert BlockValid(host, SectionAt(m.holdings, l), BlockAt(m.holdings, l).value);
    hide OuterValid, BlockAt, SectionAt, StorableBlock, HoldingsValid;
  }

  lemma StatedVariant(host: Host, m: Model, l: Location)
    requires Valid(host, m) && BlockAt(m.holdings, l).Some? && (l.AtSection? || l.AtExtension? || l.AtPeer?)
    ensures Stated(BlockAt(m.holdings, l).value, "variant")
         == if VariantAt(m.holdings, l).Some? then Text(VariantAt(m.holdings, l).value) else Json.Null
  {
    var b := BlockAt(m.holdings, l).value;
    assert BlockValid(host, SectionAt(m.holdings, l), b);
    if l.AtPeer? {
      assert ExtensionValid(host, l.section, m.holdings.extensions[l.section]);
      assert VariantStated(b, m.holdings.extensions[l.section].peers[l.index].variant);
    }
    hide OuterValid, SectionAt, StorableBlock, HoldingsValid;
  }

  lemma RowParts(c: Codec, h: Holdings, l: Location)
    ensures var row := RowAt(c, h, l);
            && Parts(row.ref) == Some(PathOf(l)) && row.collection == CollectionOf(l)
            && row.section == c.dump(Text(SectionAt(h, l)))
            && row.variant == c.dump(if VariantAt(h, l).Some? then Text(VariantAt(h, l).value) else Json.Null)
            && row.ordinal == OrdinalOf(l) && row.state == (if l.AtHistory? then Superseded else Current)
            && row.mode == ModeOf(l)
  {
    PartsOfPointer(PathOf(l));
    hide Parts, Pointer, PathOf, SectionAt, VariantAt, OrdinalOf, ModeOf, CollectionOf;
  }

  lemma SectionRow(c: Codec, row: BlockRow, l: Location, b: Block, section: string, variant: Option<string>)
    requires l.AtSection? || l.AtVariant?
    requires Parts(row.ref) == Some(PathOf(l)) && row.collection == CollectionOf(l)
    requires row.section == c.dump(Text(section)) && Stated(b, "section") == Text(section)
    requires row.variant == c.dump(if variant.Some? then Text(variant.value) else Json.Null)
    requires l.AtSection? ==> Stated(b, "variant") == if variant.Some? then Text(variant.value) else Json.Null
    requires l.AtVariant? ==> variant == Some(l.variant)
    requires row.ordinal == OrdinalOf(l) && row.state == Current && row.mode == ModeOf(l)
    ensures Describes(c, row, PathOf(l), b)
  {
    hide Parts, Stated;
  }

  lemma ExtensionRow(c: Codec, row: BlockRow, l: Location, b: Block, section: string, variant: Option<string>)
    requires l.AtExtension? || l.AtPeer?
    requires Parts(row.ref) == Some(PathOf(l)) && row.collection == CollectionOf(l)
    requires row.section == c.dump(Text(section)) && Stated(b, "section") == Text(section)
    requires row.variant == c.dump(if variant.Some? then Text(variant.value) else Json.Null)
    requires Stated(b, "variant") == if variant.Some? then Text(variant.value) else Json.Null
    requires row.ordinal == OrdinalOf(l) && row.state == Current && row.mode == ModeOf(l)
    ensures Describes(c, row, PathOf(l), b)
  {
    hide Parts, Stated, Dec;
  }

  lemma ListedRow(c: Codec, row: BlockRow, l: Location, b: Block, section: string)
    requires (l.AtLog? || l.AtHistory?) && LogLocation(l)
    requires Parts(row.ref) == Some(PathOf(l)) && row.collection == CollectionOf(l)
    requires row.section == c.dump(Text(section)) && Stated(b, "section") == Text(section)
    requires row.variant == c.dump(Json.Null)
    requires row.ordinal == OrdinalOf(l) && row.state == (if l.AtHistory? then Superseded else Current)
    requires row.mode == ModeOf(l)
    ensures Describes(c, row, PathOf(l), b)
  {
    hide Parts, Stated, Dec;
  }

  /** Each row of the block table of a valid model describes its block and where it stands. */
  lemma RowDescribes(host: Host, m: Model, l: Location)
    requires Valid(host, m) && BlockAt(m.holdings, l).Some? && LogLocation(l)
    ensures Describes(host.codec, RowAt(host.codec, m.holdings, l), PathOf(l), BlockAt(m.holdings, l).value)
  {
    hide *;
    var c, h := host.codec, m.holdings;
    var row, b := RowAt(c, h, l), BlockAt(h, l).value;
    RowParts(c, h, l);
    StatedSection(host, m, l);
    VariantOfPlace(h, l);
    match l
    case AtSection(_) =>
      StatedVariant(host, m, l);
      SectionRow(c, row, l, b, SectionAt(h, l), VariantAt(h, l));
    case AtVariant(_, _) => SectionRow(c, row, l, b, SectionAt(h, l), VariantAt(h, l));
    case AtLog(_, _) => ListedRow(c, row, l, b, SectionAt(h, l));
    case AtExtension(_) =>
      StatedVariant(host, m, l);
      ExtensionRow(c, row, l, b, SectionAt(h, l), VariantAt(h, l));
    case AtPeer(_, _) =>
      StatedVariant(host, m, l);
      ExtensionRow(c, row, l, b, SectionAt(h, l), VariantAt(h, l));
    case AtHistory(_, _) => ListedRow(c, row, l, b, SectionAt(h, l));
  }

  lemma VariantOfPlace(h: Holdings, l: Location)
    ensures l.AtVariant? ==> VariantAt(h, l) == Some(l.variant)
    ensures l.AtLog? || l.AtHistory? ==> VariantAt(h, l) == None
  {
  }

  // ----- What a valid model states in its digested value -----

  lemma AtPair(members: Members, k: string, inner: Members, j: string)
    requires k in members && members[k] == Object(inner)
    ensures At(Object(members), [k, j]) == if j in inner then Some(inner[j]) else None
  {
    assert [k, j] == [k] + [j];
    AtTwo(members, k, [j]);
    AtOnly(inner, j);
    hide At;
  }

  /** The block states its section in its annotation and again in the metadata of its content. */
  ghost predicate StatesSection(v: Json, section: string) {
    && At(v, ["annotation", "section"]) == Some(Text(section))
    && At(v, ["content", "_meta", "section"]) == Some(Text(section))
  }

  lemma ShownStates(v: Json, b: Block, section: string)
    requires ShowsBlock(v, b) && TextAt(b.annotation, "section") == Some(section)
    requires TextAt(b.meta, "section") == Some(section)
    ensures StatesSection(v, section)
  {
    AtPair(v.members, "annotation", b.annotation, "section");
    var content := v.members["content"];
    AtPair(content.members, "_meta", b.meta, "section");
    AtTwo(v.members, "content", ["_meta", "section"]);
    assert ["content", "_meta", "section"] == ["content"] + ["_meta", "section"];
    hide At;
  }

  /**
   In the digested value of a valid model every block states one section twice, which outside the
   logs is the section its path names.
   */
  lemma SectionStated(host: Host, m: Model, l: Location)
    requires Valid(host, m) && BlockAt(m.holdings, l).Some? && LogLocation(l)
    ensures At(ModelJson(m), PathOf(l)).Some?
    ensures exists section :: section != "" && StatesSection(At(ModelJson(m), PathOf(l)).value, section)
                              && (!l.AtLog? ==> section == PathOf(l)[1])
  {
    hide *;
    var b, section := BlockAt(m.holdings, l).value, SectionAt(m.holdings, l);
    ValidParts(host, m, l);
    DigestedBlock(m, l);
    ShownStates(At(ModelJson(m), PathOf(l)).value, b, section);
    SectionInPath(m.holdings, l);
  }

  lemma ValidParts(host: Host, m: Model, l: Location)
    requires Valid(host, m) && BlockAt(m.holdings, l).Some?
    ensures m.extra.Keys !! RESERVED && m.holdings.logs.Keys == LOGS && NamesFree(BlockAt(m.holdings, l).value)
    ensures var b, section := BlockAt(m.holdings, l).value, SectionAt(m.holdings, l);
            && section != "" && TextAt(b.annotation, "section") == Some(section)
            && TextAt(b.meta, "section") == Some(section)
  {
    assert BlockValid(host, SectionAt(m.holdings, l), BlockAt(m.holdings, l).value);
    hide BlockAt, SectionAt, StorableBlock, TextAt, ExtensionValid, ModelJson, Nests, RESERVED;
  }

  lemma SectionInPath(h: Holdings, l: Location)
    ensures !l.AtLog? ==> |PathOf(l)| > 1 && SectionAt(h, l) == PathOf(l)[1]
  {
    hide Dec, Name;
  }

  /** The frontmatter of a valid model names the deal and the format. */
  lemma FrontmatterStated(host: Host, m: Model)
    requires Valid(host, m)
    ensures At(ModelJson(m), ["frontmatter", "uw_version"]) == Some(Text("3.0"))
    ensures forall key :: key in ["deal_id", "deal_name"] ==>
              At(ModelJson(m), ["frontmatter", key]).Some? && At(ModelJson(m), ["frontmatter", key]).value.Text?
  {
    OuterOf(m);
    hide ModelJson, At, HoldingsValid, Nests, Storable, SectionsJson, ExtensionsJson, HistoryJson, LogJson, RESERVED;
    var o := ModelJson(m).members;
    AtPair(o, "frontmatter", m.frontmatter, "uw_version");
    AtPair(o, "frontmatter", m.frontmatter, "deal_id");
    AtPair(o, "frontmatter", m.frontmatter, "deal_name");
  }
}
