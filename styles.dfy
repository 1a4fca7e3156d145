/** The style catalog of `figmaPlus.styles` and `figmaPlus.getStyleById`:
    host style records, read from the host's library state, are reshaped into
    public style descriptors. `local` maps the file's own styles one by one;
    `published` flattens the organisation -> team -> style nesting of the
    published libraries. Host collections are sequences in the order in which
    `Object.values` yields them. */
module Styles {
  import opened Wrappers
  import Seqs

  /** Payload entries copied verbatim from a style's thumbnail; their inner
      structure is the host's and is not interpreted here. */
  datatype Paint = Paint(json: string)
  datatype Effect = Effect(json: string)
  datatype LayoutGrid = LayoutGrid(json: string)

  /** `meta.style_thumbnail` of a host style record. */
  datatype StyleThumbnail = StyleThumbnail(fillPaints: seq<Paint>, effects: seq<Effect>, layoutGrids: seq<LayoutGrid>)
  datatype Meta = Meta(styleThumbnail: StyleThumbnail)

  /** A host style record: `key`, `name`, `style_type`, `description`,
      `thumbnail_url`, `canvas_url` and the optional `meta`. */
  datatype StyleRecord = StyleRecord(
    key: string,
    name: string,
    styleType: string,
    description: string,
    thumbnailUrl: Option<string>,
    canvasUrl: string,
    meta: Option<Meta>)

  /** A public style descriptor; a `None` field is a property the descriptor does not have. */
  datatype Style = Style(
    id: string,
    name: string,
    styleType: string,
    description: string,
    canvasUrl: Option<string>,
    thumbnailUrl: Option<string>,
    fills: Option<seq<Paint>>,
    effects: Option<seq<Effect>>,
    layoutGrids: Option<seq<LayoutGrid>>)

  /** The host's catalog: local styles, and published styles nested by organisation and team. */
  type Teams = seq<seq<StyleRecord>>
  type Orgs = seq<Teams>

  /** JavaScript truthiness of an optional string. */
  predicate Truthy(u: Option<string>) {
    u.Some? && u.value != ""
  }

  /** Reference definition: the type-specific payload of a record as a closed sum. */
  datatype Payload = FillPaints(paints: seq<Paint>) | Effects(effects: seq<Effect>) | LayoutGrids(grids: seq<LayoutGrid>) | NoPayload

  function PayloadOf(s: StyleRecord): Payload {
    match s.meta
    case None => NoPayload
    case Some(m) =>
      if s.styleType == "FILL" then FillPaints(m.styleThumbnail.fillPaints)
      else if s.styleType == "EFFECT" then Effects(m.styleThumbnail.effects)
      else if s.styleType == "GRID" then LayoutGrids(m.styleThumbnail.layoutGrids)
      else NoPayload
  }

  /** The descriptor of one record; `published` descriptors also carry `canvasUrl`. */
  function Describe(s: StyleRecord, published: bool): (r: Style)
    ensures r.id == s.key && r.name == s.name && r.styleType == s.styleType && r.description == s.description
    ensures r.canvasUrl == (if published then Some(s.canvasUrl) else None)
    ensures r.thumbnailUrl.Some? <==> Truthy(s.thumbnailUrl)
    ensures r.thumbnailUrl.Some? ==> r.thumbnailUrl == s.thumbnailUrl
    ensures r.fills.Some? <==> s.styleType == "FILL" && s.meta.Some?
    ensures r.effects.Some? <==> s.styleType == "EFFECT" && s.meta.Some?
    ensures r.layoutGrids.Some? <==> s.styleType == "GRID" && s.meta.Some?
  {
    var thumbnail := if Truthy(s.thumbnailUrl) then s.thumbnailUrl else None;
    var hasMeta := s.meta.Some?;
    Style(
      id := s.key,
      name := s.name,
      styleType := s.styleType,
      description := s.description,
      canvasUrl := if published then Some(s.canvasUrl) else None,
      thumbnailUrl := thumbnail,
      fills := if s.styleType == "FILL" && hasMeta then Some(s.meta.value.styleThumbnail.fillPaints) else None,
      effects := if s.styleType == "EFFECT" && hasMeta then Some(s.meta.value.styleThumbnail.effects) else None,
      layoutGrids := if s.styleType == "GRID" && hasMeta then Some(s.meta.value.styleThumbnail.layoutGrids) else None)
  }

  /** The optional payload fields of a descriptor are exactly the record's
      payload sum: at most one of them is present, and it holds the thumbnail's list. */
  lemma DescribeCarriesPayload(s: StyleRecord, published: bool)
    ensures var r := Describe(s, published);
      && (r.fills.Some? <==> PayloadOf(s).FillPaints?)
      && (r.effects.Some? <==> PayloadOf(s).Effects?)
      && (r.layoutGrids.Some? <==> PayloadOf(s).LayoutGrids?)
      && (r.fills.Some? ==> r.fills.value == PayloadOf(s).paints)
      && (r.effects.Some? ==> r.effects.value == PayloadOf(s).effects)
      && (r.layoutGrids.Some? ==> r.layoutGrids.value == PayloadOf(s).grids)
    ensures var r := Describe(s, published);
      (if r.fills.Some? then 1 else 0) + (if r.effects.Some? then 1 else 0) + (if r.layoutGrids.Some? then 1 else 0) <= 1
  {
  }

  /** `map` of `Describe` over the records, in order. */
  function DescribeAll(records: seq<StyleRecord>, published: bool): (r: seq<Style>)
    ensures |r| == |records|
    ensures forall i :: 0 <= i < |records| ==> r[i] == Describe(records[i], published)
  {
    if records == [] then [] else [Describe(records[0], published)] + DescribeAll(records[1..], published)
  }

  /** `styles.local`: one descriptor per local record, in order, none with a `canvasUrl`. */
  function Local(records: seq<StyleRecord>): (r: seq<Style>)
    ensures |r| == |records|
    ensures forall i :: 0 <= i < |records| ==> r[i] == Describe(records[i], false)
    ensures forall d :: d in r ==> d.canvasUrl.None?
  {
    DescribeAll(records, false)
  }

  /** All published records, organisation-major, then team, then style. */
  function PublishedRecords(orgs: Orgs): seq<StyleRecord> {
    Seqs.Flatten(Seqs.Flatten(orgs))
  }

  /** `styles.published`: every published descriptor carries a `canvasUrl`. */
  function Published(orgs: Orgs): (r: seq<Style>)
    ensures |r| == |PublishedRecords(orgs)|
    ensures forall i :: 0 <= i < |r| ==> r[i] == Describe(PublishedRecords(orgs)[i], true)
    ensures forall d :: d in r ==> d.canvasUrl.Some?
  {
    DescribeAll(PublishedRecords(orgs), true)
  }

  /** Number of published styles: the sizes of all teams of all organisations added up. */
  function StyleCount(orgs: Orgs): nat {
    if orgs == [] then 0 else Seqs.TotalLength(orgs[0]) + StyleCount(orgs[1..])
  }

  /** Position of the first style of team `t` of organisation `o` in `Published(orgs)`. */
  function TeamOffset(orgs: Orgs, o: nat, t: nat): nat
    requires o < |orgs| && t <= |orgs[o]|
  {
    StyleCount(orgs[..o]) + Seqs.TotalLength(orgs[o][..t])
  }

  lemma {:induction false} StyleCountIsFlattenedLength(orgs: Orgs)
    ensures Seqs.TotalLength(Seqs.Flatten(orgs)) == StyleCount(orgs)
  {
    if orgs != [] {
      Seqs.TotalLengthAppend(orgs[0], Seqs.Flatten(orgs[1..]));
      StyleCountIsFlattenedLength(orgs[1..]);
    }
  }

  /** `published` yields exactly one descriptor per style of every team of every organisation. */
  lemma PublishedLength(orgs: Orgs)
    ensures |Published(orgs)| == StyleCount(orgs)
  {
    StyleCountIsFlattenedLength(orgs);
  }

  /** `published` is ordered organisation-major, then team, then style: the
      descriptor of style `k` of team `t` of organisation `o` sits at
      `TeamOffset(orgs, o, t) + k`. */
  lemma PublishedOrder(orgs: Orgs, o: nat, t: nat, k: nat)
    requires o < |orgs| && t < |orgs[o]| && k < |orgs[o][t]|
    ensures TeamOffset(orgs, o, t) + k < |Published(orgs)|
    ensures Published(orgs)[TeamOffset(orgs, o, t) + k] == Describe(orgs[o][t][k], true)
  {
    var teams := Seqs.Flatten(orgs);
    var p := Seqs.TotalLength(orgs[..o]) + t;
    Seqs.FlattenAt(orgs, o, t);
    Seqs.FlattenPrefix(orgs, o, t);
    assert teams[p] == orgs[o][t];
    assert teams[..p] == Seqs.Flatten(orgs[..o]) + orgs[o][..t];
    Seqs.FlattenAt(teams, p, k);
    Seqs.TotalLengthAppend(Seqs.Flatten(orgs[..o]), orgs[o][..t]);
    StyleCountIsFlattenedLength(orgs[..o]);
  }

  /** A published record is any style of any team of any organisation. */
  lemma PublishedRecordsContain(orgs: Orgs, s: StyleRecord)
    ensures s in PublishedRecords(orgs) <==> exists teams, team :: teams in orgs && team in teams && s in team
  {
    Seqs.FlattenContains(Seqs.Flatten(orgs), s);
    forall team
      ensures team in Seqs.Flatten(orgs) <==> exists teams :: teams in orgs && team in teams
    {
      Seqs.FlattenContains(orgs, team);
    }
  }

  /** `Array.prototype.find` on `id`: the first descriptor with that id, if any. */
  function FindById(styles: seq<Style>, id: string): (r: Option<Style>)
    ensures r.None? <==> forall d :: d in styles ==> d.id != id
    ensures r.Some? ==> r.value.id == id
    ensures r.Some? ==> exists i :: 0 <= i < |styles| && styles[i] == r.value && forall j :: 0 <= j < i ==> styles[j].id != id
  {
    if styles == [] then None
    else if styles[0].id == id then Some(styles[0])
    else FindById(styles[1..], id)
  }

  lemma {:induction false} FindByIdAppend(a: seq<Style>, b: seq<Style>, id: string)
    ensures FindById(a + b, id) == if FindById(a, id).Some? then FindById(a, id) else FindById(b, id)
  {
    if a != [] {
      assert (a + b)[0] == a[0];
      assert (a + b)[1..] == a[1..] + b;
      FindByIdAppend(a[1..], b, id);
    } else {
      assert a + b == b;
    }
  }

  /** `getStyleById`: a search over the local descriptors followed by the published ones. */
  function StyleById(local: seq<StyleRecord>, orgs: Orgs, id: string): (r: Option<Style>)
    ensures r.Some? ==> r.value.id == id
  {
    FindById(Local(local) + Published(orgs), id)
  }

  /** A local match wins over a published one; the published descriptors are
      searched only when no local descriptor has the id. */
  lemma StyleByIdPrefersLocal(local: seq<StyleRecord>, orgs: Orgs, id: string)
    ensures StyleById(local, orgs, id) ==
      if FindById(Local(local), id).Some? then FindById(Local(local), id) else FindById(Published(orgs), id)
  {
    FindByIdAppend(Local(local), Published(orgs), id);
  }

  /** `getStyleById` finds a descriptor exactly when some local record or some
      published record of some team of some organisation has that key. */
  lemma StyleByIdFound(local: seq<StyleRecord>, orgs: Orgs, id: string)
    ensures StyleById(local, orgs, id).Some? <==>
      (exists s :: s in local && s.key == id) ||
      (exists teams, team, s :: teams in orgs && team in teams && s in team && s.key == id)
  {
    var all := Local(local) + Published(orgs);
    if StyleById(local, orgs, id).Some? {
      var d := StyleById(local, orgs, id).value;
      assert d in all;
      if d in Local(local) {
        var i :| 0 <= i < |local| && Local(local)[i] == d;
        assert local[i] in local;
      } else {
        var i :| 0 <= i < |Published(orgs)| && Published(orgs)[i] == d;
        var s := PublishedRecords(orgs)[i];
        PublishedRecordsContain(orgs, s);
      }
    } else {
      forall s | s in local
        ensures s.key != id
      {
        var i :| 0 <= i < |local| && local[i] == s;
        assert Local(local)[i] in all;
      }
      forall teams, team, s | teams in orgs && team in teams && s in team
        ensures s.key != id
      {
        PublishedRecordsContain(orgs, s);
        var i :| 0 <= i < |PublishedRecords(orgs)| && PublishedRecords(orgs)[i] == s;
        assert Published(orgs)[i] in all;
      }
    }
  }
}
