/** Paging of the exportable reports in a WhatsApp list: at most ten rows a message, grouped by
    category, with a row that leads on to the next page. */
module ReportPaging {
  import Numerals

  const LIST_MAX_ROWS: int := 10

  datatype ReportOption = ReportOption(key: string, category: string, title: string)

  /** A section of the list: its category and the options shown as its rows. */
  datatype Section = Section(category: string, options: seq<ReportOption>)

  /** A list message: its sections, and whether a More row follows them. */
  datatype ListMessage = ListMessage(sections: seq<Section>, more: bool)

  // ---------------------------------------------------------------- pages

  function PageOptionLimit(total: nat, pageSize: int): int {
    if pageSize <= 1 then 1 else if total > pageSize then pageSize - 1 else pageSize
  }

  function ChunkBy(options: seq<ReportOption>, size: nat): seq<seq<ReportOption>>
    requires size >= 1
  {
    if options == [] then []
    else if |options| <= size then [options]
    else [options[..size]] + ChunkBy(options[size..], size)
  }

  function Chunk(options: seq<ReportOption>, pageSize: int): seq<seq<ReportOption>> {
    ChunkBy(options, if pageSize <= 0 then LIST_MAX_ROWS else pageSize)
  }

  function NormalizePage(page: int, total: nat): nat {
    if total == 0 then 0 else page % total
  }

  function NextPage(page: int, total: nat): nat {
    if total == 0 then 0 else (page + 1) % total
  }

  predicate NeedsMore(options: seq<ReportOption>) {
    |options| > LIST_MAX_ROWS
  }

  function PageSize(options: seq<ReportOption>, includeMore: bool): int {
    if includeMore then PageOptionLimit(|options|, LIST_MAX_ROWS) else LIST_MAX_ROWS
  }

  function Pages(options: seq<ReportOption>): seq<seq<ReportOption>> {
    Chunk(options, PageSize(options, NeedsMore(options)))
  }

  // ---------------------------------------------------------------- grouping

  function InCategory(page: seq<ReportOption>, category: string): seq<ReportOption> {
    if page == [] then []
    else
      var o := page[|page| - 1];
      var before := InCategory(page[..|page| - 1], category);
      if o.category == category then before + [o] else before
  }

  /** The order of Python strings. */
  predicate Less(a: string, b: string) {
    b != "" && (a == "" || a[0] < b[0] || (a[0] == b[0] && Less(a[1..], b[1..])))
  }

  predicate StrictlySorted(keys: seq<string>) {
    forall i, j :: 0 <= i < j < |keys| ==> Less(keys[i], keys[j])
  }

  function Titles(sections: seq<Section>): seq<string> {
    seq(|sections|, i requires 0 <= i < |sections| => sections[i].category)
  }

  /** The sections of a page: one for each category that occurs, by name, each with the page's options
      of that category in the page's order. */
  ghost predicate Groups(sections: seq<Section>, page: seq<ReportOption>) {
    && StrictlySorted(Titles(sections))
    && (forall o :: o in page ==> o.category in Titles(sections))
    && (forall i :: 0 <= i < |sections| ==>
          sections[i].options == InCategory(page, sections[i].category) && sections[i].options != [])
  }

  function InsertKey(keys: seq<string>, k: string): seq<string> {
    if keys == [] || Less(k, keys[0]) then [k] + keys else [keys[0]] + InsertKey(keys[1..], k)
  }

  lemma {:induction false} LessTotal(a: string, b: string)
    ensures Less(a, b) || a == b || Less(b, a)
    ensures !(Less(a, b) && Less(b, a)) && !Less(a, a)
  {
    if a != "" && b != "" && a[0] == b[0] {
      LessTotal(a[1..], b[1..]);
      assert a == [a[0]] + a[1..] && b == [b[0]] + b[1..];
    }
    if a != "" { LessTotal(a[1..], a[1..]); }
  }

  /** Where the two strings first differ the smaller character decides; a proper prefix comes first. */
  predicate FirstDifference(a: string, b: string, k: nat) {
    && k <= |a| && k < |b| && a[..k] == b[..k] && (k == |a| || a[k] < b[k])
  }

  lemma {:induction false} LessIff(a: string, b: string)
    ensures Less(a, b) <==> exists k: nat :: FirstDifference(a, b, k)
  {
    if a == "" {
      if b != "" { assert FirstDifference(a, b, 0); }
    } else if b != "" && a[0] == b[0] {
      LessIff(a[1..], b[1..]);
      assert a == [a[0]] + a[1..] && b == [b[0]] + b[1..];
      if k: nat :| FirstDifference(a[1..], b[1..], k) { assert FirstDifference(a, b, k + 1); }
      if k: nat :| FirstDifference(a, b, k) { assert FirstDifference(a[1..], b[1..], k - 1); }
    } else if b != "" && a[0] < b[0] {
      assert FirstDifference(a, b, 0);
    }
  }

  lemma {:induction false} LessTransitive(a: string, b: string, c: string)
    requires Less(a, b) && Less(b, c)
    ensures Less(a, c)
  {
    if a != "" && a[0] == b[0] && b[0] == c[0] { LessTransitive(a[1..], b[1..], c[1..]); }
  }

  lemma {:induction false} InsertKeySorts(keys: seq<string>, k: string)
    requires StrictlySorted(keys) && k !in keys
    ensures StrictlySorted(InsertKey(keys, k))
    ensures forall x :: x in InsertKey(keys, k) <==> x == k || x in keys
    ensures |InsertKey(keys, k)| == |keys| + 1
  {
    if keys == [] {
    } else if Less(k, keys[0]) {
      forall j | 0 <= j < |keys| ensures Less(k, keys[j]) {
        if j > 0 { LessTransitive(k, keys[0], keys[j]); }
      }
    } else {
      LessTotal(k, keys[0]);
      InsertKeySorts(keys[1..], k);
      var rest := InsertKey(keys[1..], k);
      assert keys[0] in keys;
      forall j | 0 <= j < |rest| ensures Less(keys[0], rest[j]) {
        assert rest[j] in rest;
        if rest[j] != k {
          var i :| 0 <= i < |keys[1..]| && keys[1..][i] == rest[j];
          assert keys[i + 1] == rest[j];
        }
      }
    }
  }

  /** sorted() of a dictionary: its keys in order. */
  method SortedKeys(keys: set<string>) returns (sorted: seq<string>)
    ensures StrictlySorted(sorted) && (forall k :: k in sorted <==> k in keys)
  {
    sorted := [];
    var left := keys;
    while left != {}
      invariant left <= keys && StrictlySorted(sorted)
      invariant forall k :: k in sorted <==> k in keys && k !in left
      decreases left
    {
      var k :| k in left;
      InsertKeySorts(sorted, k);
      sorted := InsertKey(sorted, k);
      left := left - {k};
    }
  }

  lemma InCategoryStep(page: seq<ReportOption>, i: nat, category: string)
    requires i < |page|
    ensures InCategory(page[..i + 1], category) ==
            if page[i].category == category then InCategory(page[..i], category) + [page[i]]
            else InCategory(page[..i], category)
  {
    assert page[..i + 1][..i] == page[..i];
  }

  /** Picking out a category keeps the order of the page. */
  lemma {:induction false} InCategoryKeepsOrder(a: seq<ReportOption>, b: seq<ReportOption>, category: string)
    ensures InCategory(a + b, category) == InCategory(a, category) + InCategory(b, category)
  {
    if b == [] {
      assert a + b == a;
    } else {
      InCategoryKeepsOrder(a, b[..|b| - 1], category);
      assert (a + b)[..|a + b| - 1] == a + b[..|b| - 1];
    }
  }

  lemma {:induction false} InCategoryEmptyIff(page: seq<ReportOption>, category: string)
    ensures InCategory(page, category) == [] <==> forall o :: o in page ==> o.category != category
  {
    if page != [] {
      InCategoryEmptyIff(page[..|page| - 1], category);
      assert page == page[..|page| - 1] + [page[|page| - 1]];
    }
  }

  /** Groups a page with a dictionary filled option by option, then sorts the categories. */
  method GroupPage(page: seq<ReportOption>) returns (sections: seq<Section>)
    ensures Groups(sections, page)
  {
    var grouped: map<string, seq<ReportOption>> := map[];
    var i := 0;
    while i < |page|
      invariant i <= |page|
      invariant forall c :: c in grouped <==> InCategory(page[..i], c) != []
      invariant forall c :: c in grouped ==> grouped[c] == InCategory(page[..i], c)
    {
      var o := page[i];
      forall c ensures InCategory(page[..i + 1], c) ==
                       if o.category == c then InCategory(page[..i], c) + [o] else InCategory(page[..i], c)
      {
        InCategoryStep(page, i, c);
      }
      grouped := grouped[o.category := (if o.category in grouped then grouped[o.category] else []) + [o]];
      i := i + 1;
    }
    assert page[..i] == page;
    var categories := SortedKeys(grouped.Keys);
    sections := [];
    var k := 0;
    while k < |categories|
      invariant k <= |categories| && Titles(sections) == categories[..k]
      invariant forall j :: 0 <= j < |sections| ==> sections[j].options == InCategory(page, sections[j].category)
    {
      sections := sections + [Section(categories[k], grouped[categories[k]])];
      k := k + 1;
    }
    assert categories[..k] == categories;
    forall o | o in page ensures o.category in Titles(sections) { InCategoryEmptyIff(page, o.category); }
    forall j | 0 <= j < |sections| ensures sections[j].options != [] {
      assert sections[j].category == Titles(sections)[j];
    }
  }

  /** The rows of a list message: nothing at all without options, else the grouped page and, if asked
      for, the More row. */
  method BuildReportsListSections(options: seq<ReportOption>, pageIndex: int, includeMore: bool)
    returns (message: ListMessage)
    ensures var pages := Chunk(options, PageSize(options, includeMore));
            if pages == [] then message == ListMessage([], false)
            else message.more == includeMore && Groups(message.sections, pages[NormalizePage(pageIndex, |pages|)])
  {
    var pages := Chunk(options, PageSize(options, includeMore));
    if pages == [] {
      return ListMessage([], false);
    }
    var sections := GroupPage(pages[NormalizePage(pageIndex, |pages|)]);
    message := ListMessage(sections, includeMore);
  }

  /** The page kept in a member's export session. */
  class ExportSession {
    var currentPage: int

    /** REPORT_OPTIONS starts at the first page. */
    method ShowOptions(options: seq<ReportOption>) returns (message: ListMessage)
      modifies this
      ensures currentPage == 0
      ensures ShowsPage(message, options, 0)
    {
      currentPage := 0;
      message := BuildReportsListSections(options, 0, NeedsMore(options));
    }

    /** A press of More moves on by one page, around to the first after the last. */
    method PressMore(options: seq<ReportOption>) returns (message: ListMessage)
      modifies this
      ensures currentPage ==
              if Pages(options) == [] then old(currentPage) else NextPage(old(currentPage), |Pages(options)|)
      ensures ShowsPage(message, options, currentPage)
    {
      var pages := Pages(options);
      if pages != [] {
        currentPage := NextPage(currentPage, |pages|);
      }
      message := BuildReportsListSections(options, currentPage, NeedsMore(options));
    }
  }

  /** The message shows the given page of the options, with a More row exactly when there are several. */
  ghost predicate ShowsPage(message: ListMessage, options: seq<ReportOption>, page: int) {
    var pages := Pages(options);
    if pages == [] then message == ListMessage([], false)
    else message.more == NeedsMore(options) && Groups(message.sections, pages[NormalizePage(page, |pages|)])
  }

  // ---------------------------------------------------------------- what paging promises

  function Concat(pages: seq<seq<ReportOption>>): seq<ReportOption> {
    if pages == [] then [] else pages[0] + Concat(pages[1..])
  }

  lemma {:induction false} ChunkCovers(options: seq<ReportOption>, size: nat)
    requires size >= 1
    ensures var pages := ChunkBy(options, size);
            && Concat(pages) == options
            && (forall k :: 0 <= k < |pages| ==> 1 <= |pages[k]| <= size)
            && (forall k :: 0 <= k < |pages| - 1 ==> |pages[k]| == size)
            && (pages == [] <==> options == [])
  {
    if options == [] {
    } else if |options| <= size {
      assert Concat([options][1..]) == [];
      assert options + [] == options;
    } else {
      var rest := ChunkBy(options[size..], size);
      ChunkCovers(options[size..], size);
      assert ([options[..size]] + rest)[1..] == rest;
      assert options[..size] + options[size..] == options;
    }
  }

  function PageAfter(options: seq<ReportOption>, presses: nat): int {
    if presses == 0 then 0 else NextPage(PageAfter(options, presses - 1), |Pages(options)|)
  }

  lemma {:induction false} PageAfterIs(options: seq<ReportOption>, presses: nat)
    requires options != []
    ensures |Pages(options)| > 0 && PageAfter(options, presses) == presses % |Pages(options)|
  {
    ChunkCovers(options, PageSize(options, NeedsMore(options)));
    var n := |Pages(options)|;
    if presses > 0 {
      PageAfterIs(options, presses - 1);
      ModStep(presses - 1, n);
    }
  }

  lemma ModStep(k: nat, n: nat)
    requires n > 0
    ensures (k % n + 1) % n == (k + 1) % n
  {
    Numerals.DivMod(k, n);
    Numerals.RemainderOfNext(k, k / n, n, k % n);
  }

  /** The pages shown by REPORT_OPTIONS and the following presses of More hold each option exactly once,
      in order; k presses lead to page k modulo their number; and no message exceeds ten rows, the More
      row included. Up to ten options make one page, more make full pages of nine and a last one. */
  lemma PagingCoversEverything(options: seq<ReportOption>, presses: nat)
    requires options != []
    ensures var pages := Pages(options);
            && |pages| > 0
            && Concat(pages) == options
            && PageAfter(options, presses) == presses % |pages|
            && (forall k :: 0 <= k < |pages| ==>
                1 <= |pages[k]| && |pages[k]| + (if NeedsMore(options) then 1 else 0) <= 10)
            && (NeedsMore(options) <==> |options| > 10)
            && (if |options| <= 10 then |pages| == 1
                else |pages| > 1 && forall k :: 0 <= k < |pages| - 1 ==> |pages[k]| == 9)
  {
    PageAfterIs(options, presses);
    ChunkCovers(options, PageSize(options, NeedsMore(options)));
  }

  // ---------------------------------------------------------------- grouping only permutes

  function Shown(sections: seq<Section>): seq<ReportOption> {
    if sections == [] then [] else Shown(sections[..|sections| - 1]) + sections[|sections| - 1].options
  }

  function InCategories(page: seq<ReportOption>, categories: set<string>): seq<ReportOption> {
    if page == [] then []
    else
      var o := page[|page| - 1];
      var before := InCategories(page[..|page| - 1], categories);
      if o.category in categories then before + [o] else before
  }

  lemma {:induction false} OneMoreCategory(page: seq<ReportOption>, categories: set<string>, c: string)
    requires c !in categories
    ensures multiset(InCategories(page, categories + {c})) ==
            multiset(InCategories(page, categories)) + multiset(InCategory(page, c))
  {
    if page != [] { OneMoreCategory(page[..|page| - 1], categories, c); }
  }

  lemma {:induction false} AllCategories(page: seq<ReportOption>, categories: set<string>)
    requires forall o :: o in page ==> o.category in categories
    ensures InCategories(page, categories) == page
  {
    if page != [] {
      assert forall o :: o in page[..|page| - 1] ==> o in page;
      AllCategories(page[..|page| - 1], categories);
      assert page[|page| - 1] in page;
      assert page == page[..|page| - 1] + [page[|page| - 1]];
    }
  }

  lemma {:induction false} NoCategories(page: seq<ReportOption>)
    ensures InCategories(page, {}) == []
  {
    if page != [] { NoCategories(page[..|page| - 1]); }
  }

  function TitleSet(sections: seq<Section>): set<string> {
    set s | s in sections :: s.category
  }

  lemma {:induction false} ShownIs(sections: seq<Section>, page: seq<ReportOption>)
    requires StrictlySorted(Titles(sections))
    requires forall i :: 0 <= i < |sections| ==> sections[i].options == InCategory(page, sections[i].category)
    ensures multiset(Shown(sections)) == multiset(InCategories(page, TitleSet(sections)))
  {
    if sections == [] {
      NoCategories(page);
      assert TitleSet([]) == {};
    } else {
      var n := |sections| - 1;
      var c := sections[n].category;
      assert forall i :: 0 <= i < n ==> Titles(sections[..n])[i] == Titles(sections)[i];
      ShownIs(sections[..n], page);
      forall i | 0 <= i < n ensures sections[i].category != c {
        assert Less(Titles(sections)[i], Titles(sections)[n]);
        LessTotal(c, c);
      }
      assert sections == sections[..n] + [sections[n]];
      assert TitleSet(sections) == TitleSet(sections[..n]) + {c};
      OneMoreCategory(page, TitleSet(sections[..n]), c);
    }
  }

  /** Grouping by category only permutes a page: the sections show exactly its options, as often as the
      page has them. */
  lemma GroupingPermutes(sections: seq<Section>, page: seq<ReportOption>)
    requires Groups(sections, page)
    ensures multiset(Shown(sections)) == multiset(page)
    ensures |Shown(sections)| == |page|
  {
    ShownIs(sections, page);
    forall o | o in page ensures o.category in TitleSet(sections) {
      var i :| 0 <= i < |Titles(sections)| && Titles(sections)[i] == o.category;
      assert sections[i] in sections;
    }
    AllCategories(page, TitleSet(sections));
    assert |multiset(Shown(sections))| == |Shown(sections)| && |multiset(page)| == |page|;
  }

  // ---------------------------------------------------------------- from the first page to the last

  /** All rows shown in a sequence of messages, the More rows left aside. */
  function AllShown(messages: seq<ListMessage>): seq<ReportOption> {
    if messages == [] then [] else Shown(messages[0].sections) + AllShown(messages[1..])
  }

  lemma {:induction false} SamePages(messages: seq<ListMessage>, pages: seq<seq<ReportOption>>)
    requires |messages| == |pages|
    requires forall k :: 0 <= k < |pages| ==> multiset(Shown(messages[k].sections)) == multiset(pages[k])
    ensures multiset(AllShown(messages)) == multiset(Concat(pages))
  {
    if messages != [] {
      assert forall k :: 0 <= k < |pages| - 1 ==> messages[1..][k] == messages[k + 1] && pages[1..][k] == pages[k + 1];
      SamePages(messages[1..], pages[1..]);
      assert multiset(Shown(messages[0].sections)) == multiset(pages[0]);
    }
  }

  /** The messages of ShowOptions and the presses after it, in order. */
  ghost predicate Presses(messages: seq<ListMessage>, options: seq<ReportOption>) {
    forall k: nat :: k < |messages| ==> ShowsPage(messages[k], options, PageAfter(options, k))
  }

  lemma ShownOnPress(messages: seq<ListMessage>, options: seq<ReportOption>, k: nat)
    requires options != [] && Presses(messages, options) && k < |messages| && k < |Pages(options)|
    ensures multiset(Shown(messages[k].sections)) == multiset(Pages(options)[k])
  {
    var pages := Pages(options);
    PageAfterIs(options, k);
    Numerals.SmallRemainder(k, |pages|);
    assert ShowsPage(messages[k], options, PageAfter(options, k));
    GroupingPermutes(messages[k].sections, pages[k]);
  }

  /** REPORT_OPTIONS followed by one press of More fewer than there are pages shows every option exactly as
      often as the list has it, and no other; with no option at all the one message is empty. */
  lemma PressesShowEverything(messages: seq<ListMessage>, options: seq<ReportOption>)
    requires Presses(messages, options) && |messages| == if Pages(options) == [] then 1 else |Pages(options)|
    ensures multiset(AllShown(messages)) == multiset(options)
  {
    var pages := Pages(options);
    ChunkCovers(options, PageSize(options, NeedsMore(options)));
    if options == [] {
      assert ShowsPage(messages[0], options, PageAfter(options, 0));
      assert messages[1..] == [] && AllShown(messages) == [];
    } else {
      forall k | 0 <= k < |pages| ensures multiset(Shown(messages[k].sections)) == multiset(pages[k]) {
        ShownOnPress(messages, options, k);
      }
      SamePages(messages, pages);
    }
  }
}
