/** The HTML reporter of the TypeScript scanner (`toHtml.ts`): rows grouped
    by domain, then by page within a domain, each page with an optional
    screenshot and one list item per violation.

    The document is modelled by its structure, not its characters: the fixed
    markup around each value is left out and each interpolated value is kept
    as the text that lands in the page. The `escape-html` package is a
    parameter `esc`, so every text value is written as `esc(...)` of a row
    field and the one raw value, the node count, stays a number. */
module HtmlReporter {
  import opened Wrappers
  import opened Text
  import opened Escaping
  import opened Grouping
  import opened CsvReport

  /** One `<li>`: impact, rule id, help text, link to the docs, node count. */
  datatype Item = Item(impact: string, id: string, help: string, helpUrl: string, nodes: nat)

  /** An `<img>`: its `src` and `alt` texts. */
  datatype Shot = Shot(src: string, alt: string)

  /** The block of one page: its heading, its screenshot and its items. */
  datatype PageBlock = PageBlock(heading: string, screenshot: Option<Shot>, items: seq<Item>)

  /** The `<section>` of one domain. */
  datatype Section = Section(heading: string, pages: seq<PageBlock>)

  datatype Body = NoViolations | Sections(sections: seq<Section>)

  /** The document: the "Generated:" text and the body. */
  datatype Document = Document(generated: string, body: Body)

  /** `row.domain || "unknown-domain"`. */
  function DomainKey(r: ViolationRow): string {
    if r.domain == "" then "unknown-domain" else r.domain
  }

  /** `${pageName} — ${url}`, with an em dash. */
  function PageKey(r: ViolationRow): string {
    r.pageName + " \U{2014} " + r.url
  }

  function RenderItem(esc: string -> string, v: ViolationRow): Item {
    Item(esc(v.impact), esc(v.id), esc(v.help), esc(v.helpUrl), v.nodes)
  }

  function RenderItems(esc: string -> string, vs: seq<ViolationRow>): (r: seq<Item>)
    ensures |r| == |vs| && forall k :: 0 <= k < |vs| ==> r[k] == RenderItem(esc, vs[k])
  {
    if vs == [] then [] else RenderItems(esc, vs[..|vs| - 1]) + [RenderItem(esc, vs[|vs| - 1])]
  }

  /** The screenshot of a page comes from its first row, and only a path that
      is present and non-empty is shown. */
  function ShotOf(esc: string -> string, pageKey: string, vs: seq<ViolationRow>): Option<Shot> {
    if vs == [] then None
    else match vs[0].screenshot
      case None => None
      case Some(p) => if p == "" then None else Some(Shot(esc(p), "Screenshot of " + esc(pageKey)))
  }

  function RenderPage(esc: string -> string, g: (string, seq<ViolationRow>)): PageBlock {
    PageBlock(esc(g.0), ShotOf(esc, g.0, g.1), RenderItems(esc, g.1))
  }

  function RenderPages(esc: string -> string, gs: seq<(string, seq<ViolationRow>)>): (r: seq<PageBlock>)
    ensures |r| == |gs| && forall j :: 0 <= j < |gs| ==> r[j] == RenderPage(esc, gs[j])
  {
    if gs == [] then [] else RenderPages(esc, gs[..|gs| - 1]) + [RenderPage(esc, gs[|gs| - 1])]
  }

  function RenderSection(esc: string -> string, d: (string, seq<ViolationRow>)): Section {
    Section(esc(d.0), RenderPages(esc, Groups(d.1, PageKey)))
  }

  function RenderSections(esc: string -> string, ds: seq<(string, seq<ViolationRow>)>): (r: seq<Section>)
    ensures |r| == |ds| && forall i :: 0 <= i < |ds| ==> r[i] == RenderSection(esc, ds[i])
  {
    if ds == [] then [] else RenderSections(esc, ds[..|ds| - 1]) + [RenderSection(esc, ds[|ds| - 1])]
  }

  /** What `toHtml` produces. */
  function Report(esc: string -> string, rows: seq<ViolationRow>, generatedAt: string): Document {
    Document(esc(generatedAt),
             if |rows| == 0 then NoViolations else Sections(RenderSections(esc, Groups(rows, DomainKey))))
  }

  lemma RenderSectionsStep(esc: string -> string, ds: seq<(string, seq<ViolationRow>)>, i: nat)
    requires i < |ds|
    ensures RenderSections(esc, ds[..i + 1]) == RenderSections(esc, ds[..i]) + [RenderSection(esc, ds[i])]
  {
    PrefixStep(ds, i);
  }

  /** `toHtml`: the two grouping loops, the rest as the mapping it is. */
  method ToHtml(esc: string -> string, rows: seq<ViolationRow>, generatedAt: string) returns (doc: Document)
    ensures doc == Report(esc, rows, generatedAt)
  {
    var domains := GroupBy(rows, DomainKey);
    var sections: seq<Section> := [];
    var i := 0;
    while i < |domains|
      invariant 0 <= i <= |domains|
      invariant sections == RenderSections(esc, domains[..i])
    {
      var pages := GroupBy(domains[i].1, PageKey);
      RenderSectionsStep(esc, domains, i);
      sections := sections + [Section(esc(domains[i].0), RenderPages(esc, pages))];
      i := i + 1;
    }
    WholePrefix(domains);
    var body := if |rows| == 0 then NoViolations else Sections(sections);
    doc := Document(esc(generatedAt), body);
  }

  /* ---------------------------------------------------------------- */
  /* Properties                                                       */
  /* ---------------------------------------------------------------- */

  /** The "no violations" body is shown exactly when there are no rows. */
  lemma NoViolationsIffNoRows(esc: string -> string, rows: seq<ViolationRow>, generatedAt: string)
    ensures Report(esc, rows, generatedAt).body == NoViolations <==> rows == []
  {
  }

  /** One section per domain key, in order of first occurrence; a row without
      a domain falls under "unknown-domain". */
  lemma SectionsFollowDomains(esc: string -> string, rows: seq<ViolationRow>, generatedAt: string)
    requires rows != []
    ensures var secs := Report(esc, rows, generatedAt).body.sections;
      |secs| == |Keys(rows, DomainKey)| &&
      forall i :: 0 <= i < |secs| ==> secs[i].heading == esc(Keys(rows, DomainKey)[i])
  {
  }

  /** Page `j` of section `i` is rendered from the `j`-th page group of the
      `i`-th domain group: its heading is the page key, its screenshot is
      that of the group's first row when it is present and non-empty. */
  lemma PageOfGroup(esc: string -> string, rows: seq<ViolationRow>, generatedAt: string, i: nat, j: nat)
    requires i < |Groups(rows, DomainKey)|
    requires j < |Groups(Groups(rows, DomainKey)[i].1, PageKey)|
    ensures var g := Groups(Groups(rows, DomainKey)[i].1, PageKey)[j];
      var pb := Report(esc, rows, generatedAt).body.sections[i].pages[j];
      g.1 != [] && pb.heading == esc(g.0) &&
      (pb.screenshot.Some? <==> g.1[0].screenshot.Some? && g.1[0].screenshot.value != "") &&
      (pb.screenshot.Some? ==> pb.screenshot.value == Shot(esc(g.1[0].screenshot.value), "Screenshot of " + esc(g.0))) &&
      |pb.items| == |g.1|
  {
    var ds := Groups(rows, DomainKey);
    var gs := Groups(ds[i].1, PageKey);
    assert rows != [] by {
      assert |Keys(rows, DomainKey)| <= |rows|;
    }
    GroupsWellFormed(ds[i].1, PageKey);
    assert gs[j] in gs;
  }

  /* Every row becomes exactly one list item. */

  /** The items of a list of page blocks, one block after another. */
  function PageItems(ps: seq<PageBlock>): seq<Item> {
    if ps == [] then [] else PageItems(ps[..|ps| - 1]) + ps[|ps| - 1].items
  }

  function SectionItems(ss: seq<Section>): seq<Item> {
    if ss == [] then [] else SectionItems(ss[..|ss| - 1]) + PageItems(ss[|ss| - 1].pages)
  }

  /** Every list item of the document, in document order. */
  function DocItems(doc: Document): seq<Item> {
    match doc.body
    case NoViolations => []
    case Sections(ss) => SectionItems(ss)
  }

  /** The rows in the order the document lists them: domain by domain, page by page. */
  function NestedFlatten(ds: seq<(string, seq<ViolationRow>)>): seq<ViolationRow> {
    if ds == [] then [] else NestedFlatten(ds[..|ds| - 1]) + Flatten(Groups(ds[|ds| - 1].1, PageKey))
  }

  function DocRows(rows: seq<ViolationRow>): seq<ViolationRow> {
    NestedFlatten(Groups(rows, DomainKey))
  }

  lemma {:induction false} RenderItemsConcat(esc: string -> string, a: seq<ViolationRow>, b: seq<ViolationRow>)
    ensures RenderItems(esc, a + b) == RenderItems(esc, a) + RenderItems(esc, b)
    decreases |b|
  {
    if b == [] {
      assert a + b == a;
    } else {
      var init := b[..|b| - 1];
      assert a + b == (a + init) + [b[|b| - 1]];
      assert (a + b)[..|a + b| - 1] == a + init;
      RenderItemsConcat(esc, a, init);
    }
  }

  lemma {:induction false} PageItemsOfGroups(esc: string -> string, gs: seq<(string, seq<ViolationRow>)>)
    ensures PageItems(RenderPages(esc, gs)) == RenderItems(esc, Flatten(gs))
  {
    if gs != [] {
      var ps := RenderPages(esc, gs);
      assert ps[..|ps| - 1] == RenderPages(esc, gs[..|gs| - 1]);
      PageItemsOfGroups(esc, gs[..|gs| - 1]);
      RenderItemsConcat(esc, Flatten(gs[..|gs| - 1]), gs[|gs| - 1].1);
    }
  }

  lemma {:induction false} SectionItemsOfGroups(esc: string -> string, ds: seq<(string, seq<ViolationRow>)>)
    ensures SectionItems(RenderSections(esc, ds)) == RenderItems(esc, NestedFlatten(ds))
  {
    if ds != [] {
      var ss := RenderSections(esc, ds);
      assert ss[..|ss| - 1] == RenderSections(esc, ds[..|ds| - 1]);
      SectionItemsOfGroups(esc, ds[..|ds| - 1]);
      PageItemsOfGroups(esc, Groups(ds[|ds| - 1].1, PageKey));
      RenderItemsConcat(esc, NestedFlatten(ds[..|ds| - 1]), Flatten(Groups(ds[|ds| - 1].1, PageKey)));
    }
  }

  lemma {:induction false} NestedFlattenPermutes(ds: seq<(string, seq<ViolationRow>)>)
    ensures multiset(NestedFlatten(ds)) == multiset(Flatten(ds))
  {
    if ds != [] {
      NestedFlattenPermutes(ds[..|ds| - 1]);
      GroupsArePermutation(ds[|ds| - 1].1, PageKey);
    }
  }

  /** The list items are the rendered rows, and the rows they come from are
      a permutation of the input: every row is listed once, none is invented. */
  lemma ItemsAreTheRows(esc: string -> string, rows: seq<ViolationRow>, generatedAt: string)
    ensures DocItems(Report(esc, rows, generatedAt)) == RenderItems(esc, DocRows(rows))
    ensures multiset(DocRows(rows)) == multiset(rows)
    ensures |DocItems(Report(esc, rows, generatedAt))| == |rows|
  {
    NestedFlattenPermutes(Groups(rows, DomainKey));
    GroupsArePermutation(rows, DomainKey);
    if rows != [] {
      SectionItemsOfGroups(esc, Groups(rows, DomainKey));
    }
    assert |multiset(DocRows(rows))| == |multiset(rows)|;
  }

  /* Nothing unescaped reaches the markup. */

  predicate ItemSafe(it: Item) {
    NoMarkup(it.impact) && NoMarkup(it.id) && NoMarkup(it.help) && NoMarkup(it.helpUrl)
  }

  predicate PageSafe(pb: PageBlock) {
    NoMarkup(pb.heading) &&
    (pb.screenshot.Some? ==> NoMarkup(pb.screenshot.value.src) && NoMarkup(pb.screenshot.value.alt)) &&
    forall k :: 0 <= k < |pb.items| ==> ItemSafe(pb.items[k])
  }

  predicate SectionSafe(s: Section) {
    NoMarkup(s.heading) && forall j :: 0 <= j < |s.pages| ==> PageSafe(s.pages[j])
  }

  /** Every text value of the document is free of `<`, `>` and `"`. */
  predicate DocSafe(doc: Document) {
    NoMarkup(doc.generated) &&
    (doc.body.Sections? ==> forall i :: 0 <= i < |doc.body.sections| ==> SectionSafe(doc.body.sections[i]))
  }

  lemma NoMarkupConcat(a: string, b: string)
    requires NoMarkup(a) && NoMarkup(b)
    ensures NoMarkup(a + b)
  {
    forall i | 0 <= i < |a + b|
      ensures (a + b)[i] != '<' && (a + b)[i] != '>' && (a + b)[i] != '"'
    {
      if i >= |a| {
        assert (a + b)[i] == b[i - |a|];
      }
    }
  }

  lemma PageSafeOf(esc: string -> string, g: (string, seq<ViolationRow>))
    requires forall s :: NoMarkup(esc(s))
    ensures PageSafe(RenderPage(esc, g))
  {
    var pb := RenderPage(esc, g);
    if pb.screenshot.Some? {
      NoMarkupConcat("Screenshot of ", esc(g.0));
    }
    forall k | 0 <= k < |pb.items|
      ensures ItemSafe(pb.items[k])
    {
    }
  }

  lemma SectionSafeOf(esc: string -> string, d: (string, seq<ViolationRow>))
    requires forall s :: NoMarkup(esc(s))
    ensures SectionSafe(RenderSection(esc, d))
  {
    var gs := Groups(d.1, PageKey);
    forall j | 0 <= j < |gs|
      ensures PageSafe(RenderPages(esc, gs)[j])
    {
      PageSafeOf(esc, gs[j]);
    }
  }

  /** With an escaper whose output never holds `<`, `>` or `"`, no row field
      can open a tag or leave an attribute: only the node count is written
      unescaped, and it is a number. */
  lemma ReportIsSafe(esc: string -> string, rows: seq<ViolationRow>, generatedAt: string)
    requires forall s :: NoMarkup(esc(s))
    ensures DocSafe(Report(esc, rows, generatedAt))
  {
    var ds := Groups(rows, DomainKey);
    forall i | 0 <= i < |ds|
      ensures SectionSafe(RenderSections(esc, ds)[i])
    {
      SectionSafeOf(esc, ds[i]);
    }
  }

  /** The escaper of the report renderer is one such escaper. */
  lemma EscIsSafe()
    ensures forall s :: NoMarkup(Esc(s))
  {
  }
}
