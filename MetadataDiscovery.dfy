/** Discovery of the feature store's exported metadata: the overview counts, the
    case-insensitive keyword search and the text of the summary report. */
module MetadataDiscovery {
  import opened Wrappers
  import opened Decimal

  // ---------------------------------------------------------------------------------
  // The exported metadata, with every key that may be absent as an option
  // ---------------------------------------------------------------------------------

  datatype EntityEntry = EntityEntry(name: Option<string>)

  datatype ServiceEntry = ServiceEntry(name: Option<string>)

  /** One feature view; `source_path` and `ttl` hold the text the report prints for them. */
  datatype ViewEntry = ViewEntry(
    name: Option<string>,
    entities: Option<seq<string>>,
    features: Option<seq<string>>,
    sourcePath: Option<string>,
    ttl: Option<string>)

  datatype Metadata = Metadata(
    exportTimestamp: Option<string>,
    featureStore: Option<string>,
    entities: Option<seq<EntityEntry>>,
    featureViews: Option<seq<ViewEntry>>,
    featureServices: Option<seq<ServiceEntry>>)

  function Views(m: Metadata): seq<ViewEntry> {
    m.featureViews.GetOr([])
  }

  function Entities(m: Metadata): seq<EntityEntry> {
    m.entities.GetOr([])
  }

  function Features(v: ViewEntry): seq<string> {
    v.features.GetOr([])
  }

  // ---------------------------------------------------------------------------------
  // explore_metadata_overview
  // ---------------------------------------------------------------------------------

  datatype Overview = Overview(
    exportTimestamp: string,
    featureStore: string,
    entities: nat,
    featureViews: nat,
    featureServices: nat)

  /** What `explore_metadata_overview` shows: the two labels, `'Unknown'` when absent,
      and the lengths of the three lists, 0 when a list is absent. */
  function MetadataOverview(m: Metadata): (r: Overview)
    ensures m.exportTimestamp.None? ==> r.exportTimestamp == "Unknown"
    ensures m.exportTimestamp.Some? ==> r.exportTimestamp == m.exportTimestamp.value
    ensures m.featureStore.None? ==> r.featureStore == "Unknown"
    ensures m.featureStore.Some? ==> r.featureStore == m.featureStore.value
    ensures m.entities.None? ==> r.entities == 0
    ensures m.entities.Some? ==> r.entities == |m.entities.value|
    ensures m.featureViews.None? ==> r.featureViews == 0
    ensures m.featureViews.Some? ==> r.featureViews == |m.featureViews.value|
    ensures m.featureServices.None? ==> r.featureServices == 0
    ensures m.featureServices.Some? ==> r.featureServices == |m.featureServices.value|
  {
    Overview(
      m.exportTimestamp.GetOr("Unknown"),
      m.featureStore.GetOr("Unknown"),
      |Entities(m)|,
      |Views(m)|,
      |m.featureServices.GetOr([])|)
  }

  // ---------------------------------------------------------------------------------
  // Lower case and substring, as `str.lower()` and `in` on strings
  // ---------------------------------------------------------------------------------

  predicate IsUpper(c: char) {
    'A' <= c <= 'Z'
  }

  function LowerChar(c: char): char {
    if IsUpper(c) then (c as int + 32) as char else c
  }

  /** `s.lower()` on the letters A to Z. */
  function Lower(s: string): (r: string)
    ensures |r| == |s|
  {
    if s == [] then [] else [LowerChar(s[0])] + Lower(s[1..])
  }

  /** Each character is lower-cased on its own. */
  lemma {:induction false} LowerAt(s: string)
    ensures forall i :: 0 <= i < |s| ==> Lower(s)[i] == LowerChar(s[i])
  {
    if s != [] {
      LowerAt(s[1..]);
    }
  }

  /** Lower-casing leaves no capital letter and so changes nothing a second time. */
  lemma {:induction false} LowerIdempotent(s: string)
    ensures forall i :: 0 <= i < |s| ==> !IsUpper(Lower(s)[i])
    ensures Lower(Lower(s)) == Lower(s)
  {
    var l := Lower(s);
    LowerAt(s);
    LowerAt(l);
    assert forall i :: 0 <= i < |l| ==> LowerChar(l[i]) == l[i];
  }

  predicate StartsWith(s: string, prefix: string) {
    |prefix| <= |s| && s[..|prefix|] == prefix
  }

  /** `needle in hay`: the needle starts somewhere in the haystack. */
  function Contains(hay: string, needle: string): bool {
    StartsWith(hay, needle) || (hay != [] && Contains(hay[1..], needle))
  }

  /** `Contains` holds exactly when the needle occurs at some offset. */
  lemma {:induction false} ContainsAt(hay: string, needle: string)
    ensures Contains(hay, needle) <==> exists i :: 0 <= i <= |hay| && StartsWith(hay[i..], needle)
  {
    if StartsWith(hay, needle) {
      assert hay[0..] == hay;
    } else if hay == [] {
    } else {
      ContainsAt(hay[1..], needle);
      if Contains(hay[1..], needle) {
        var i :| 0 <= i <= |hay[1..]| && StartsWith(hay[1..][i..], needle);
        assert hay[1..][i..] == hay[i + 1..];
      }
      if exists i :: 0 <= i <= |hay| && StartsWith(hay[i..], needle) {
        var i :| 0 <= i <= |hay| && StartsWith(hay[i..], needle);
        assert i != 0 by {
          assert hay[0..] == hay;
        }
        assert hay[1..][i - 1..] == hay[i..];
      }
    }
  }

  /** `keyword.lower() in name.lower()`. */
  predicate Matches(keyword: string, name: string) {
    Contains(Lower(name), Lower(keyword))
  }

  /** Matching depends on neither the keyword's nor the name's case. */
  lemma {:induction false} MatchesIgnoresCase(keyword: string, name: string)
    ensures Matches(Lower(keyword), name) == Matches(keyword, name)
    ensures Matches(keyword, Lower(name)) == Matches(keyword, name)
  {
    LowerIdempotent(keyword);
    LowerIdempotent(name);
  }

  /** The empty keyword matches every name. */
  lemma {:induction false} EmptyKeywordMatches(name: string)
    ensures Matches("", name)
  {
    assert Lower("") == "";
    assert StartsWith(Lower(name), "");
  }

  // ---------------------------------------------------------------------------------
  // search_metadata_by_keyword
  // ---------------------------------------------------------------------------------

  /** One printed match: a feature view, a feature inside a named view, or an entity. */
  datatype Hit = ViewHit(view: string) | FeatureHit(feature: string, view: string) | EntityHit(entity: string)

  /** The name the search compares, `''` when absent. */
  function ViewName(v: ViewEntry): string {
    v.name.GetOr("")
  }

  function EntityName(e: EntityEntry): string {
    e.name.GetOr("")
  }

  /** The features of a view that match, in order. */
  function FeatureHits(features: seq<string>, view: string, keyword: string): seq<Hit> {
    if features == [] then []
    else
      FeatureHits(features[..|features| - 1], view, keyword) +
      (if Matches(keyword, features[|features| - 1]) then [FeatureHit(features[|features| - 1], view)] else [])
  }

  /** What one view contributes: itself when its name matches, then its matching features. */
  function OneViewHits(v: ViewEntry, keyword: string): seq<Hit> {
    (if Matches(keyword, ViewName(v)) then [ViewHit(ViewName(v))] else []) +
    FeatureHits(Features(v), ViewName(v), keyword)
  }

  function ViewsHits(views: seq<ViewEntry>, keyword: string): seq<Hit> {
    if views == [] then []
    else ViewsHits(views[..|views| - 1], keyword) + OneViewHits(views[|views| - 1], keyword)
  }

  function EntityHits(entities: seq<EntityEntry>, keyword: string): seq<Hit> {
    if entities == [] then []
    else
      EntityHits(entities[..|entities| - 1], keyword) +
      (if Matches(keyword, EntityName(entities[|entities| - 1])) then [EntityHit(EntityName(entities[|entities| - 1]))] else [])
  }

  /** Every match the search prints, in the order it prints them. */
  function SearchHits(m: Metadata, keyword: string): seq<Hit> {
    ViewsHits(Views(m), keyword) + EntityHits(Entities(m), keyword)
  }

  lemma {:induction false} FeatureHitsPrefix(features: seq<string>, j: nat, view: string, keyword: string)
    requires j < |features|
    ensures FeatureHits(features[..j + 1], view, keyword) ==
      FeatureHits(features[..j], view, keyword) + (if Matches(keyword, features[j]) then [FeatureHit(features[j], view)] else [])
  {
    assert features[..j + 1][..j] == features[..j];
  }

  lemma {:induction false} ViewsHitsPrefix(views: seq<ViewEntry>, i: nat, keyword: string)
    requires i < |views|
    ensures ViewsHits(views[..i + 1], keyword) == ViewsHits(views[..i], keyword) + OneViewHits(views[i], keyword)
  {
    assert views[..i + 1][..i] == views[..i];
  }

  lemma {:induction false} EntityHitsPrefix(entities: seq<EntityEntry>, k: nat, keyword: string)
    requires k < |entities|
    ensures EntityHits(entities[..k + 1], keyword) ==
      EntityHits(entities[..k], keyword) + (if Matches(keyword, EntityName(entities[k])) then [EntityHit(EntityName(entities[k]))] else [])
  {
    assert entities[..k + 1][..k] == entities[..k];
  }

  lemma {:induction false} HitsAssoc(a: seq<Hit>, b: seq<Hit>, c: seq<Hit>)
    ensures a + b + c == a + (b + c)
  {
  }

  /** The inner loop of `search_metadata_by_keyword`: the features of one view that match,
      appended to the hits so far, with the found flag kept in step. */
  method SearchFeatures(features: seq<string>, view: string, keyword: string, hits0: seq<Hit>, found0: bool)
    returns (hits: seq<Hit>, found: bool)
    requires found0 <==> hits0 != []
    ensures hits == hits0 + FeatureHits(features, view, keyword)
    ensures found <==> hits != []
  {
    hits, found := hits0, found0;
    var j := 0;
    while j < |features|
      invariant 0 <= j <= |features|
      invariant hits == hits0 + FeatureHits(features[..j], view, keyword)
      invariant found <==> hits != []
    {
      if Matches(keyword, features[j]) {
        hits := hits + [FeatureHit(features[j], view)];
        found := true;
      }
      FeatureHitsPrefix(features, j, view, keyword);
      HitsAssoc(hits0, FeatureHits(features[..j], view, keyword),
        if Matches(keyword, features[j]) then [FeatureHit(features[j], view)] else []);
      j := j + 1;
    }
    assert features[..|features|] == features;
  }

  /** The entity loop of `search_metadata_by_keyword`: the entities that match, appended to
      the hits so far, with the found flag kept in step. */
  method SearchEntities(entities: seq<EntityEntry>, keyword: string, hits0: seq<Hit>, found0: bool)
    returns (hits: seq<Hit>, found: bool)
    requires found0 <==> hits0 != []
    ensures hits == hits0 + EntityHits(entities, keyword)
    ensures found <==> hits != []
  {
    hits, found := hits0, found0;
    var k := 0;
    while k < |entities|
      invariant 0 <= k <= |entities|
      invariant hits == hits0 + EntityHits(entities[..k], keyword)
      invariant found <==> hits != []
    {
      var name := EntityName(entities[k]);
      if Matches(keyword, name) {
        hits := hits + [EntityHit(name)];
        found := true;
      }
      EntityHitsPrefix(entities, k, keyword);
      HitsAssoc(hits0, EntityHits(entities[..k], keyword),
        if Matches(keyword, name) then [EntityHit(name)] else []);
      k := k + 1;
    }
    assert entities[..|entities|] == entities;
  }

  /** `search_metadata_by_keyword(metadata, keyword)`: the matches it prints, and whether
      it prints "No matches found" (exactly when `found` stayed false). */
  method SearchMetadataByKeyword(m: Metadata, keyword: string) returns (hits: seq<Hit>, noMatches: bool)
    ensures hits == SearchHits(m, keyword)
    ensures noMatches <==> hits == []
  {
    var found := false;
    hits := [];
    var views := Views(m);
    var i := 0;
    while i < |views|
      invariant 0 <= i <= |views|
      invariant hits == ViewsHits(views[..i], keyword)
      invariant found <==> hits != []
    {
      var fv := views[i];
      var name := ViewName(fv);
      ghost var start := hits;
      ghost var head: seq<Hit> := [];
      if Matches(keyword, name) {
        hits := hits + [ViewHit(name)];
        head := [ViewHit(name)];
        found := true;
      }
      hits, found := SearchFeatures(Features(fv), name, keyword, hits, found);
      HitsAssoc(start, head, FeatureHits(Features(fv), name, keyword));
      ViewsHitsPrefix(views, i, keyword);
      i := i + 1;
    }
    assert views[..|views|] == views;
    hits, found := SearchEntities(Entities(m), keyword, hits, found);
    noMatches := !found;
  }

  /** A feature is reported exactly when it matches, inside the view it belongs to. */
  lemma {:induction false} FeatureHitsAre(features: seq<string>, view: string, keyword: string, h: Hit)
    ensures h in FeatureHits(features, view, keyword) <==>
      h.FeatureHit? && h.view == view && h.feature in features && Matches(keyword, h.feature)
  {
    if features != [] {
      var init := features[..|features| - 1];
      FeatureHitsAre(init, view, keyword, h);
      assert features == init + [features[|features| - 1]];
    }
  }

  /** A view reports itself exactly when its name matches, and its features whatever its
      own name does. */
  /** Some view in the list carries this name. */
  predicate NamesView(views: seq<ViewEntry>, name: string) {
    exists i :: 0 <= i < |views| && ViewName(views[i]) == name
  }

  /** Some view in the list with this name lists this feature. */
  predicate ListsFeature(views: seq<ViewEntry>, name: string, feature: string) {
    exists i :: 0 <= i < |views| && ViewName(views[i]) == name && feature in Features(views[i])
  }

  lemma {:induction false} NamesViewSnoc(views: seq<ViewEntry>, name: string)
    requires views != []
    ensures NamesView(views, name) <==>
      NamesView(views[..|views| - 1], name) || ViewName(views[|views| - 1]) == name
  {
    var n := |views| - 1;
    assert forall i :: 0 <= i < n ==> views[..n][i] == views[i];
  }

  lemma {:induction false} ListsFeatureSnoc(views: seq<ViewEntry>, name: string, feature: string)
    requires views != []
    ensures ListsFeature(views, name, feature) <==>
      ListsFeature(views[..|views| - 1], name, feature) ||
      (ViewName(views[|views| - 1]) == name && feature in Features(views[|views| - 1]))
  {
    var n := |views| - 1;
    assert forall i :: 0 <= i < n ==> views[..n][i] == views[i];
  }

  lemma {:induction false} ViewsHitsAre(views: seq<ViewEntry>, keyword: string, h: Hit)
    ensures h.ViewHit? ==>
      (h in ViewsHits(views, keyword) <==> NamesView(views, h.view) && Matches(keyword, h.view))
    ensures h.FeatureHit? ==>
      (h in ViewsHits(views, keyword) <==> ListsFeature(views, h.view, h.feature) && Matches(keyword, h.feature))
    ensures !h.EntityHit? || h !in ViewsHits(views, keyword)
  {
    if views != [] {
      var n := |views| - 1;
      ViewsHitsAre(views[..n], keyword, h);
      OneViewHitsAre(views[n], keyword, h);
      assert h in ViewsHits(views, keyword) <==>
        h in ViewsHits(views[..n], keyword) || h in OneViewHits(views[n], keyword);
      if h.ViewHit? {
        NamesViewSnoc(views, h.view);
      } else if h.FeatureHit? {
        ListsFeatureSnoc(views, h.view, h.feature);
      }
    }
  }


  /** The hits of one view: itself when its name matches, and its matching features. */
  lemma {:induction false} OneViewHitsAre(v: ViewEntry, keyword: string, h: Hit)
    ensures h.ViewHit? ==>
      (h in OneViewHits(v, keyword) <==> ViewName(v) == h.view && Matches(keyword, h.view))
    ensures h.FeatureHit? ==>
      (h in OneViewHits(v, keyword) <==>
        ViewName(v) == h.view && h.feature in Features(v) && Matches(keyword, h.feature))
    ensures !h.EntityHit? || h !in OneViewHits(v, keyword)
  {
    FeatureHitsAre(Features(v), ViewName(v), keyword, h);
  }

  /** An entity is reported exactly when its name matches. */
  lemma {:induction false} EntityHitsAre(entities: seq<EntityEntry>, keyword: string, h: Hit)
    ensures h in EntityHits(entities, keyword) <==>
      h.EntityHit? && exists i :: 0 <= i < |entities| && EntityName(entities[i]) == h.entity && Matches(keyword, h.entity)
  {
    if entities != [] {
      var n := |entities| - 1;
      EntityHitsAre(entities[..n], keyword, h);
      assert forall i :: 0 <= i < n ==> entities[..n][i] == entities[i];
    }
  }

  /** No match at all: no view name, no feature and no entity name matches. */
  ghost predicate NothingMatches(m: Metadata, keyword: string) {
    (forall v :: v in Views(m) ==> !Matches(keyword, ViewName(v))) &&
    (forall v, f :: v in Views(m) && f in Features(v) ==> !Matches(keyword, f)) &&
    (forall e :: e in Entities(m) ==> !Matches(keyword, EntityName(e)))
  }

  lemma {:induction false} NoHitNoMatch(m: Metadata, keyword: string)
    requires SearchHits(m, keyword) == []
    ensures NothingMatches(m, keyword)
  {
    var views, entities := Views(m), Entities(m);
    forall v | v in views
      ensures !Matches(keyword, ViewName(v))
    {
      var i :| 0 <= i < |views| && views[i] == v;
      ViewsHitsAre(views, keyword, ViewHit(ViewName(v)));
    }
    forall v, f | v in views && f in Features(v)
      ensures !Matches(keyword, f)
    {
      var i :| 0 <= i < |views| && views[i] == v;
      ViewsHitsAre(views, keyword, FeatureHit(f, ViewName(v)));
    }
    forall e | e in entities
      ensures !Matches(keyword, EntityName(e))
    {
      var i :| 0 <= i < |entities| && entities[i] == e;
      EntityHitsAre(entities, keyword, EntityHit(EntityName(e)));
    }
  }

  lemma {:induction false} HitSomeMatch(m: Metadata, keyword: string)
    requires SearchHits(m, keyword) != []
    ensures !NothingMatches(m, keyword)
  {
    var views, entities := Views(m), Entities(m);
    var h := SearchHits(m, keyword)[0];
    ViewsHitsAre(views, keyword, h);
    EntityHitsAre(entities, keyword, h);
    if h.ViewHit? {
      var i :| 0 <= i < |views| && ViewName(views[i]) == h.view && Matches(keyword, h.view);
      assert views[i] in views;
    } else if h.FeatureHit? {
      var i :| 0 <= i < |views| && ViewName(views[i]) == h.view && h.feature in Features(views[i]) &&
        Matches(keyword, h.feature);
      assert views[i] in views;
    } else {
      var i :| 0 <= i < |entities| && EntityName(entities[i]) == h.entity && Matches(keyword, h.entity);
      assert entities[i] in entities;
    }
  }

  /** "No matches found" is printed exactly when no view name, no feature of any view and
      no entity name matches the keyword. */
  lemma {:induction false} NoMatchesExactly(m: Metadata, keyword: string)
    ensures SearchHits(m, keyword) == [] <==> NothingMatches(m, keyword)
  {
    if SearchHits(m, keyword) == [] {
      NoHitNoMatch(m, keyword);
    } else {
      HitSomeMatch(m, keyword);
    }
  }

  /** The number of features over all views. */
  function FeatureCount(views: seq<ViewEntry>): nat {
    if views == [] then 0 else FeatureCount(views[..|views| - 1]) + |Features(views[|views| - 1])|
  }

  lemma {:induction false} AllFeatureHits(features: seq<string>, view: string)
    ensures |FeatureHits(features, view, "")| == |features|
  {
    if features != [] {
      AllFeatureHits(features[..|features| - 1], view);
      EmptyKeywordMatches(features[|features| - 1]);
    }
  }

  lemma {:induction false} AllViewsHits(views: seq<ViewEntry>)
    ensures |ViewsHits(views, "")| == |views| + FeatureCount(views)
  {
    if views != [] {
      var v := views[|views| - 1];
      AllViewsHits(views[..|views| - 1]);
      EmptyKeywordMatches(ViewName(v));
      AllFeatureHits(Features(v), ViewName(v));
    }
  }

  lemma {:induction false} AllEntityHits(entities: seq<EntityEntry>)
    ensures |EntityHits(entities, "")| == |entities|
  {
    if entities != [] {
      AllEntityHits(entities[..|entities| - 1]);
      EmptyKeywordMatches(EntityName(entities[|entities| - 1]));
    }
  }

  /** The empty keyword reports every view, every feature and every entity: as many
      matches as the overview counts views and entities, plus the features. */
  lemma {:induction false} EmptyKeywordFindsAll(m: Metadata)
    ensures |SearchHits(m, "")| ==
      MetadataOverview(m).featureViews + FeatureCount(Views(m)) + MetadataOverview(m).entities
  {
    AllViewsHits(Views(m));
    AllEntityHits(Entities(m));
  }

  // ---------------------------------------------------------------------------------
  // export_summary_report
  // ---------------------------------------------------------------------------------

  /** `', '.join(items)`. */
  function Join(items: seq<string>): string {
    if items == [] then ""
    else if |items| == 1 then items[0]
    else items[0] + ", " + Join(items[1..])
  }

  /** Joining one more item appends the separator and the item. */
  lemma {:induction false} JoinSnoc(items: seq<string>, x: string)
    ensures Join(items + [x]) == if items == [] then x else Join(items) + ", " + x
  {
    if |items| > 1 {
      assert (items + [x])[1..] == items[1..] + [x];
      JoinSnoc(items[1..], x);
    } else if |items| == 1 {
      assert (items + [x])[1..] == [x];
    }
  }

  /** The joined text is the items with a two-character separator between each pair. */
  lemma {:induction false} JoinLength(items: seq<string>)
    ensures |items| > 0 ==> |Join(items)| == TotalLength(items) + 2 * (|items| - 1)
  {
    if |items| > 1 {
      JoinLength(items[1..]);
    }
  }

  function TotalLength(items: seq<string>): nat {
    if items == [] then 0 else |items[0]| + TotalLength(items[1..])
  }

  /** The report up to the feature views, with the generation time given. */
  function ReportHeader(m: Metadata, generatedOn: string): string {
    var o := MetadataOverview(m);
    "# Feature Discovery Report\n\nGenerated on: " + generatedOn + "\n\n" +
    "## Overview\n\n" +
    "- **Feature Store**: " + o.featureStore + "\n" +
    "- **Export Timestamp**: " + o.exportTimestamp + "\n\n" +
    "## Summary Statistics\n\n" +
    "- **Entities**: " + NatText(o.entities) + "\n" +
    "- **Feature Views**: " + NatText(o.featureViews) + "\n" +
    "- **Feature Services**: " + NatText(o.featureServices) + "\n\n" +
    "## Feature Views\n\n"
  }

  /** The five lines of a view's section, one per `+=` of the source. */
  function HeadingLine(v: ViewEntry): string {
    "### " + v.name.GetOr("Unknown") + "\n"
  }

  function EntitiesLine(v: ViewEntry): string {
    "- **Entities**: " + Join(v.entities.GetOr([])) + "\n"
  }

  function FeaturesLine(v: ViewEntry): string {
    "- **Features**: " + Join(Features(v)) + "\n"
  }

  function SourceLine(v: ViewEntry): string {
    "- **Source**: " + v.sourcePath.GetOr("Unknown") + "\n"
  }

  function TtlLine(v: ViewEntry): string {
    "- **TTL**: " + v.ttl.GetOr("Unknown") + "\n\n"
  }

  /** The section of one feature view. */
  function Section(v: ViewEntry): string {
    HeadingLine(v) + EntitiesLine(v) + FeaturesLine(v) + SourceLine(v) + TtlLine(v)
  }

  lemma {:induction false} AppendAssoc(a: string, b: string, c: string)
    ensures a + b + c == a + (b + c)
  {
  }

  /** Appending five texts one at a time appends their concatenation. */
  lemma {:induction false} AppendFive(r: string, a: string, b: string, c: string, d: string, e: string)
    ensures r + a + b + c + d + e == r + (a + b + c + d + e)
  {
  }

  /** The texts of the items one after another. */
  function Concat<T>(items: seq<T>, text: T -> string): string {
    if items == [] then "" else Concat(items[..|items| - 1], text) + text(items[|items| - 1])
  }

  lemma {:induction false} ConcatSplit<T>(a: seq<T>, b: seq<T>, text: T -> string)
    ensures Concat(a + b, text) == Concat(a, text) + Concat(b, text)
  {
    if b == [] {
      assert a + b == a;
    } else {
      var n := |b| - 1;
      assert (a + b)[..|a + b| - 1] == a + b[..n];
      ConcatSplit(a, b[..n], text);
    }
  }

  /** Extending a prefix by one item appends that item's text. */
  lemma {:induction false} ConcatPrefix<T>(items: seq<T>, i: nat, text: T -> string)
    requires i < |items|
    ensures Concat(items[..i + 1], text) == Concat(items[..i], text) + text(items[i])
    ensures i + 1 == |items| ==> Concat(items[..i + 1], text) == Concat(items, text)
  {
    assert items[..i + 1][..i] == items[..i];
    assert items[..|items|] == items;
  }

  function Sections(views: seq<ViewEntry>): string {
    Concat(views, Section)
  }

  function SummaryReport(m: Metadata, generatedOn: string): string {
    ReportHeader(m, generatedOn) + Sections(Views(m))
  }

  /** The text `export_summary_report` writes, built line by line as the source builds it. */
  method ExportSummaryReport(m: Metadata, generatedOn: string) returns (report: string)
    ensures report == SummaryReport(m, generatedOn)
  {
    report := ReportHeader(m, generatedOn);
    var views := Views(m);
    var i := 0;
    while i < |views|
      invariant 0 <= i <= |views|
      invariant report == ReportHeader(m, generatedOn) + Sections(views[..i])
    {
      var fv := views[i];
      ghost var before := report;
      report := report + HeadingLine(fv);
      report := report + EntitiesLine(fv);
      report := report + FeaturesLine(fv);
      report := report + SourceLine(fv);
      report := report + TtlLine(fv);
      AppendFive(before, HeadingLine(fv), EntitiesLine(fv), FeaturesLine(fv), SourceLine(fv), TtlLine(fv));
      ConcatPrefix(views, i, Section);
      AppendAssoc(ReportHeader(m, generatedOn), Sections(views[..i]), Section(fv));
      i := i + 1;
    }
    assert views[..|views|] == views;
  }

  /** An item's text sits between the texts of the items before and after it. */
  lemma {:induction false} ConcatAt<T>(items: seq<T>, i: nat, text: T -> string)
    requires i < |items|
    ensures Concat(items, text) == Concat(items[..i], text) + text(items[i]) + Concat(items[i + 1..], text)
  {
    assert items == items[..i] + [items[i]] + items[i + 1..];
    ConcatSplit(items[..i] + [items[i]], items[i + 1..], text);
    ConcatSplit(items[..i], [items[i]], text);
    assert [items[i]][..0] == [];
  }

  /** The report holds one section per feature view, in input order: the section of view
      `i` comes right after the sections of the views before it. */
  lemma {:induction false} ReportSectionsInOrder(m: Metadata, generatedOn: string, i: nat)
    requires i < |Views(m)|
    ensures SummaryReport(m, generatedOn) ==
      ReportHeader(m, generatedOn) + (Sections(Views(m)[..i]) + Section(Views(m)[i]) + Sections(Views(m)[i + 1..]))
  {
    ConcatAt(Views(m), i, Section);
  }

  /** The summary counts in the report are the overview's counts, printed in decimal. */
  lemma {:induction false} ReportCountsReadBack(m: Metadata, generatedOn: string)
    ensures DecimalValue(NatText(MetadataOverview(m).entities)) == |Entities(m)|
    ensures DecimalValue(NatText(MetadataOverview(m).featureViews)) == |Views(m)|
    ensures DecimalValue(NatText(MetadataOverview(m).featureServices)) == |m.featureServices.GetOr([])|
  {
    NatTextReadsBack(MetadataOverview(m).entities);
    NatTextReadsBack(MetadataOverview(m).featureViews);
    NatTextReadsBack(MetadataOverview(m).featureServices);
  }
}
