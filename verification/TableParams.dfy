/** Table state in the URL: frontend/lib/table/params.ts.
  *
  * The query string is modelled as what URLSearchParams makes of it, a map from keys to values.
  * String(n) and Number(s) are a parameter, Numerals, of which only is assumed that Number gives
  * numbers of the format, binary64 in JavaScript, and reads back what String prints of them.
  */
module TableParams {
  import opened Wrappers
  import opened Amounts
  import opened Doubles

  const PAGE_SIZES := {20, 50, 100}
  const FIRST_SIZE: nat := 20
  const RESERVED := {"q", "sort", "page", "size"}
  const MAX_Q: nat := 100
  const MAX_FILTER: nat := 60

  datatype Config = Config(
    sortFields: seq<string>, defaultSort: string, filterKeys: seq<string>, defaultSize: Option<nat>)

  datatype Number = NaN | Finite(value: real) | PosInfinity | NegInfinity

  datatype Numerals = Numerals(number: string -> Number, text: Count -> string, format: Format)

  /** A number of the format has a whole part of the format. */
  ghost predicate ReadsFormat(j: Numerals) {
    forall s :: j.number(s).Finite? && j.number(s).value >= 1.0 ==>
                  Representable(j.number(s).value.Floor, j.format)
  }

  ghost predicate Lawful(j: Numerals) {
    && ReadsFormat(j)
    && (forall n: nat :: Representable(n, j.format) ==> j.number(j.text(Exactly(n))) == Finite(n as real))
    && j.number(j.text(Endless)) == PosInfinity
    && j.number("") == Finite(0.0)
  }

  datatype Params = Params(
    q: string, sort: string, page: Count, size: nat, filters: map<string, string>, skip: Count, take: nat)

  /** What a link changes; a filter set to None or to nothing is removed. */
  datatype Patch = Patch(
    q: Option<string>, sort: Option<string>, page: Option<Count>, size: Option<nat>,
    filters: Option<map<string, Option<string>>>)

  // ---------- parsing ----------

  type Raw = map<string, seq<string>>

  /** The first value of a repeated key; nothing if it is absent. */
  function First(raw: Raw, k: string): string {
    if k in raw && raw[k] != [] then raw[k][0] else ""
  }

  function Cut(s: string, max: nat): string {
    if |s| <= max then s else s[..max]
  }

  /** Where c first occurs, or the length. */
  function Find(s: string, c: char): (p: nat)
    ensures p <= |s| && (p < |s| ==> s[p] == c) && forall i :: 0 <= i < p ==> s[i] != c
  {
    if s == "" || s[0] == c then 0 else 1 + Find(s[1..], c)
  }

  /** The first two parts of s between colons; the second is None if there is no colon. */
  function SplitTwo(s: string): (string, Option<string>) {
    var p := Find(s, ':');
    if p == |s| then (s, None) else
    var rest := s[p + 1..];
    (s[..p], Some(rest[..Find(rest, ':')]))
  }

  function Join(field: string, dir: string): string {
    field + ":" + dir
  }

  function DefaultSize(cfg: Config): nat {
    cfg.defaultSize.GetOr(FIRST_SIZE)
  }

  function SortOf(text: string, cfg: Config): string {
    var (field, dir) := SplitTwo(text);
    if field in cfg.sortFields && (dir == Some("asc") || dir == Some("desc")) then Join(field, dir.value)
    else cfg.defaultSort
  }

  function SizeOf(x: Number, cfg: Config): nat {
    if x == Finite(20.0) then 20 else if x == Finite(50.0) then 50 else if x == Finite(100.0) then 100
    else DefaultSize(cfg)
  }

  /** max(1, floor(x || 1)). */
  function PageOf(x: Number): Count {
    match x
    case NaN => Exactly(1)
    case Finite(v) => if v.Floor < 1 then Exactly(1) else Exactly(v.Floor)
    case PosInfinity => Endless
    case NegInfinity => Exactly(1)
  }

  function RowsBefore(page: nat, size: nat): nat
    requires page >= 1
  {
    var pages: nat := page - 1;
    pages * size
  }

  /** (page - 1) * size, both operations rounded. */
  function SkipOf(page: Count, size: nat, f: Format): Count {
    match page
    case Exactly(n) => if n == 0 then Exactly(0) else Times(Round(n - 1, f), size, f)
    case _ => Times(page, size, f)
  }

  function FiltersOf(raw: Raw, keys: seq<string>): map<string, string> {
    map k | k in keys && Trim(First(raw, k)) != "" :: Cut(Trim(First(raw, k)), MAX_FILTER)
  }

  function Complete(q: string, sort: string, page: Count, size: nat, filters: map<string, string>, f: Format)
    : Params
  {
    Params(q, sort, page, size, filters, SkipOf(page, size, f), size)
  }

  function Parse(raw: Raw, cfg: Config, j: Numerals): Params {
    Complete(Cut(Trim(First(raw, "q")), MAX_Q),
             SortOf(First(raw, "sort"), cfg),
             PageOf(j.number(First(raw, "page"))),
             SizeOf(j.number(First(raw, "size")), cfg),
             FiltersOf(raw, cfg.filterKeys),
             j.format)
  }

  lemma OneMoreFilter(raw: Raw, keys: seq<string>, k: string)
    ensures var v := Trim(First(raw, k));
            FiltersOf(raw, keys + [k])
              == if v != "" then FiltersOf(raw, keys)[k := Cut(v, MAX_FILTER)] else FiltersOf(raw, keys)
  {
  }

  method ReadFilters(raw: Raw, keys: seq<string>) returns (filters: map<string, string>)
    ensures filters == FiltersOf(raw, keys)
  {
    filters := map[];
    for i := 0 to |keys|
      invariant filters == FiltersOf(raw, keys[..i])
    {
      var k := keys[i];
      OneMoreFilter(raw, keys[..i], k);
      assert keys[..i + 1] == keys[..i] + [k];
      var v := Trim(First(raw, k));
      if v != "" {
        filters := filters[k := Cut(v, MAX_FILTER)];
      }
    }
    assert keys[..|keys|] == keys;
  }

  method ParseTableParams(raw: Raw, cfg: Config, j: Numerals) returns (p: Params)
    ensures p == Parse(raw, cfg, j)
  {
    var q := Cut(Trim(First(raw, "q")), MAX_Q);
    var sort := SortOf(First(raw, "sort"), cfg);
    var size := SizeOf(j.number(First(raw, "size")), cfg);
    var page := PageOf(j.number(First(raw, "page")));
    var filters := ReadFilters(raw, cfg.filterKeys);
    p := Complete(q, sort, page, size, filters, j.format);
  }

  // ---------- printing ----------

  function Put(sp: map<string, string>, on: bool, k: string, v: string): map<string, string> {
    if on then sp[k := v] else sp
  }

  function PrintedFilters(filters: map<string, string>, keys: seq<string>): map<string, string> {
    map k | k in keys && k in filters && filters[k] != "" :: filters[k]
  }

  predicate BeyondFirst(page: Count) {
    page.Endless? || (page.Exactly? && page.n > 1)
  }

  /** The parameters before the filters: each only where it differs from its default. */
  function PrintedHead(p: Params, cfg: Config, j: Numerals): map<string, string> {
    var sp0 := Put(map[], p.q != "", "q", p.q);
    var sp1 := Put(sp0, p.sort != cfg.defaultSort, "sort", p.sort);
    var sp2 := Put(sp1, BeyondFirst(p.page), "page", j.text(p.page));
    Put(sp2, p.size != DefaultSize(cfg), "size", j.text(Exactly(p.size)))
  }

  function Print(p: Params, cfg: Config, j: Numerals): map<string, string> {
    PrintedHead(p, cfg, j) + PrintedFilters(p.filters, cfg.filterKeys)
  }

  /** The filters after a patch: what the patch sets, and what it does not touch. */
  function PatchedFilters(filters: map<string, string>, changes: map<string, Option<string>>): map<string, string> {
    map k | k in filters.Keys + changes.Keys && (k in changes ==> changes[k].GetOr("") != "")
      :: if k in changes then changes[k].GetOr("") else filters[k]
  }

  predicate OnlyPages(patch: Patch) {
    patch.q.None? && patch.sort.None? && patch.size.None? && patch.filters.None?
  }

  /** The state a link leads to. Everything but a mere page change goes back to the first page. */
  function Patched(current: Params, patch: Patch, f: Format): Params {
    Complete(
      patch.q.GetOr(current.q),
      patch.sort.GetOr(current.sort),
      if OnlyPages(patch) then patch.page.GetOr(current.page) else Exactly(1),
      patch.size.GetOr(current.size),
      PatchedFilters(current.filters, patch.filters.GetOr(map[])),
      f)
  }

  lemma OneMoreChange(filters: map<string, string>, done: map<string, Option<string>>, k: string,
                      change: Option<string>)
    requires k !in done
    ensures PatchedFilters(filters, done[k := change])
         == if change.GetOr("") != "" then PatchedFilters(filters, done)[k := change.GetOr("")]
            else PatchedFilters(filters, done) - {k}
  {
  }

  lemma NoChange(filters: map<string, string>)
    ensures PatchedFilters(filters, map[]) == filters
  {
  }

  lemma ChangeNext(changes: map<string, Option<string>>, left: set<string>, k: string)
    requires left <= changes.Keys && k in left
    ensures k !in changes - left
    ensures changes - (left - {k}) == (changes - left)[k := changes[k]]
  {
  }

  method ApplyChanges(filters: map<string, string>, changes: map<string, Option<string>>)
    returns (after: map<string, string>)
    ensures after == PatchedFilters(filters, changes)
  {
    after := filters;
    var left := changes.Keys;
    NoChange(filters);
    assert changes - left == map[];
    while left != {}
      invariant left <= changes.Keys && after == PatchedFilters(filters, changes - left)
      decreases |left|
    {
      var k :| k in left;
      var v := changes[k];
      ChangeNext(changes, left, k);
      OneMoreChange(filters, changes - left, k, v);
      after := if v.GetOr("") != "" then after[k := v.GetOr("")] else after - {k};
      left := left - {k};
    }
    assert changes - left == changes;
  }

  method PutFilters(head: map<string, string>, filters: map<string, string>, keys: seq<string>)
    returns (query: map<string, string>)
    ensures query == head + PrintedFilters(filters, keys)
  {
    query := head;
    assert head + PrintedFilters(filters, keys[..0]) == head;
    for i := 0 to |keys|
      invariant query == head + PrintedFilters(filters, keys[..i])
    {
      var k := keys[i];
      OneMoreKey(head, filters, keys[..i], k);
      assert keys[..i + 1] == keys[..i] + [k];
      if k in filters && filters[k] != "" {
        query := query[k := filters[k]];
      }
    }
    assert keys[..|keys|] == keys;
  }

  lemma OneMoreKey(head: map<string, string>, filters: map<string, string>, keys: seq<string>, k: string)
    ensures head + PrintedFilters(filters, keys + [k])
         == if k in filters && filters[k] != "" then (head + PrintedFilters(filters, keys))[k := filters[k]]
            else head + PrintedFilters(filters, keys)
  {
  }

  method TableHref(pathname: string, current: Params, patch: Patch, cfg: Config, j: Numerals)
    returns (path: string, query: map<string, string>)
    ensures path == pathname && query == Print(Patched(current, patch, j.format), cfg, j)
  {
    path := pathname;
    var q := patch.q.GetOr(current.q);
    var sort := patch.sort.GetOr(current.sort);
    var size := patch.size.GetOr(current.size);
    var filters := ApplyChanges(current.filters, patch.filters.GetOr(map[]));
    var resets := patch.q.Some? || patch.sort.Some? || patch.size.Some? || patch.filters.Some?;
    var page := if resets then Exactly(1) else patch.page.GetOr(current.page);

    query := map[];
    if q != "" {
      query := query["q" := q];
    }
    if sort != cfg.defaultSort {
      query := query["sort" := sort];
    }
    if BeyondFirst(page) {
      query := query["page" := j.text(page)];
    }
    if size != DefaultSize(cfg) {
      query := query["size" := j.text(Exactly(size))];
    }
    query := PutFilters(query, filters, cfg.filterKeys);
  }

  // ---------- the state space ----------

  predicate NormalText(s: string, max: nat) {
    Trim(s) == s && |s| <= max
  }

  predicate SortsBy(sort: string, field: string) {
    ':' !in field && (sort == Join(field, "asc") || sort == Join(field, "desc"))
  }

  predicate ValidSort(sort: string, cfg: Config) {
    sort == cfg.defaultSort || exists f :: f in cfg.sortFields && SortsBy(sort, f)
  }

  predicate ValidSize(size: nat, cfg: Config) {
    size in PAGE_SIZES || size == DefaultSize(cfg)
  }

  ghost predicate ValidPage(page: Count, f: Format) {
    page.Endless? || (page.Exactly? && page.n >= 1 && Representable(page.n, f))
  }

  /** The states of a table: what the URL can say of one. */
  ghost predicate Normal(p: Params, cfg: Config, f: Format) {
    && NormalText(p.q, MAX_Q) && ValidSort(p.sort, cfg) && ValidPage(p.page, f) && ValidSize(p.size, cfg)
    && (forall k :: k in p.filters ==>
          k in cfg.filterKeys && p.filters[k] != "" && NormalText(p.filters[k], MAX_FILTER))
    && p.skip == SkipOf(p.page, p.size, f) && p.take == p.size
  }

  ghost predicate NormalPatch(patch: Patch, cfg: Config, f: Format) {
    && (patch.q.Some? ==> NormalText(patch.q.value, MAX_Q))
    && (patch.sort.Some? ==> ValidSort(patch.sort.value, cfg))
    && (patch.page.Some? ==> ValidPage(patch.page.value, f))
    && (patch.size.Some? ==> ValidSize(patch.size.value, cfg))
    && (patch.filters.Some? ==>
          forall k :: k in patch.filters.value ==>
            k in cfg.filterKeys && NormalText(patch.filters.value[k].GetOr(""), MAX_FILTER))
  }

  /** No filter is called q, sort, page or size. */
  predicate KeysAreFree(cfg: Config) {
    forall k :: k in cfg.filterKeys ==> k !in RESERVED
  }

  lemma PatchedIsNormal(current: Params, patch: Patch, cfg: Config, f: Format)
    requires Normal(current, cfg, f) && NormalPatch(patch, cfg, f)
    ensures Normal(Patched(current, patch, f), cfg, f)
  {
    SmallIsRepresentable(1, f);
    assert NormalText("", MAX_FILTER);
  }

  // ---------- reading back what was printed ----------

  /** The parser's view of a printed query. */
  function AsRaw(query: map<string, string>): Raw {
    map k | k in query :: [query[k]]
  }

  lemma PrintedHeadReads(p: Params, cfg: Config, j: Numerals, k: string)
    requires KeysAreFree(cfg) && k in RESERVED
    ensures k in Print(p, cfg, j) <==> k in PrintedHead(p, cfg, j)
    ensures k in Print(p, cfg, j) ==> Print(p, cfg, j)[k] == PrintedHead(p, cfg, j)[k]
  {
  }

  lemma PrintedReads(p: Params, cfg: Config, j: Numerals)
    requires KeysAreFree(cfg)
    ensures var raw := AsRaw(Print(p, cfg, j));
            && First(raw, "q") == p.q
            && First(raw, "sort") == (if p.sort != cfg.defaultSort then p.sort else "")
            && First(raw, "page") == (if BeyondFirst(p.page) then j.text(p.page) else "")
            && First(raw, "size") == (if p.size != DefaultSize(cfg) then j.text(Exactly(p.size)) else "")
  {
    PrintedHeadReads(p, cfg, j, "q");
    PrintedHeadReads(p, cfg, j, "sort");
    PrintedHeadReads(p, cfg, j, "page");
    PrintedHeadReads(p, cfg, j, "size");
  }

  /** A link names only what is not at its default. */
  lemma LinksAreClean(p: Params, cfg: Config, j: Numerals)
    requires KeysAreFree(cfg)
    ensures var query := Print(p, cfg, j);
            && ("q" in query <==> p.q != "")
            && ("sort" in query <==> p.sort != cfg.defaultSort)
            && ("page" in query <==> p.page.Endless? || (p.page.Exactly? && p.page.n > 1))
            && ("size" in query <==> p.size != cfg.defaultSize.GetOr(20))
            && forall k :: k in query && k !in {"q", "sort", "page", "size"} ==>
                             k in cfg.filterKeys && k in p.filters && p.filters[k] != "" && query[k] == p.filters[k]
  {
    PrintedHeadReads(p, cfg, j, "q");
    PrintedHeadReads(p, cfg, j, "sort");
    PrintedHeadReads(p, cfg, j, "page");
    PrintedHeadReads(p, cfg, j, "size");
  }

  lemma FiltersRead(p: Params, cfg: Config, j: Numerals)
    requires KeysAreFree(cfg) && Normal(p, cfg, j.format)
    ensures FiltersOf(AsRaw(Print(p, cfg, j)), cfg.filterKeys) == p.filters
  {
    var sp := Print(p, cfg, j);
    forall k | k in cfg.filterKeys
      ensures First(AsRaw(sp), k) == if k in p.filters then p.filters[k] else ""
    {
      assert k !in RESERVED;
      assert k in sp <==> k in PrintedFilters(p.filters, cfg.filterKeys);
    }
    assert Trim("") == "";
  }

  lemma {:induction false} FindIs(s: string, c: char, p: nat)
    requires p <= |s| && (p < |s| ==> s[p] == c) && forall i :: 0 <= i < p ==> s[i] != c
    ensures Find(s, c) == p
  {
  }

  lemma SplitReads(field: string, dir: string)
    requires ':' !in field && ':' !in dir
    ensures SplitTwo(Join(field, dir)) == (field, Some(dir))
  {
    var s := Join(field, dir);
    assert s[|field|] == ':' && forall i :: 0 <= i < |field| ==> s[i] == field[i];
    FindIs(s, ':', |field|);
    FindIs(dir, ':', |dir|);
    assert s[..|field|] == field;
    assert s[|field| + 1..] == dir;
    assert dir[..|dir|] == dir;
  }

  lemma SortByReads(sort: string, field: string, cfg: Config)
    requires field in cfg.sortFields && SortsBy(sort, field)
    ensures SortOf(sort, cfg) == sort
  {
    SplitReads(field, "asc");
    SplitReads(field, "desc");
  }

  lemma SortReads(sort: string, cfg: Config)
    requires ValidSort(sort, cfg)
    ensures SortOf(if sort != cfg.defaultSort then sort else "", cfg) == sort
  {
    if sort != cfg.defaultSort {
      var f :| f in cfg.sortFields && SortsBy(sort, f);
      SortByReads(sort, f, cfg);
    } else {
      assert SplitTwo("") == ("", None);
    }
  }

  lemma PageReads(page: Count, j: Numerals)
    requires Lawful(j) && ValidPage(page, j.format)
    ensures PageOf(j.number(if BeyondFirst(page) then j.text(page) else "")) == page
  {
  }

  lemma SizeReads(size: nat, cfg: Config, j: Numerals)
    requires Lawful(j) && ValidSize(size, cfg)
    ensures SizeOf(j.number(if size != DefaultSize(cfg) then j.text(Exactly(size)) else ""), cfg) == size
  {
    Pow2Grows(7, j.format.bits);
    if size in PAGE_SIZES {
      SmallIsRepresentable(size, j.format);
    }
  }

  /** Every state survives the URL. */
  lemma ParseInvertsPrint(p: Params, cfg: Config, j: Numerals)
    requires Lawful(j) && KeysAreFree(cfg) && Normal(p, cfg, j.format)
    ensures Parse(AsRaw(Print(p, cfg, j)), cfg, j) == p
  {
    PrintedReads(p, cfg, j);
    FiltersRead(p, cfg, j);
    SortReads(p.sort, cfg);
    PageReads(p.page, j);
    SizeReads(p.size, cfg, j);
  }

  /** Following a link leads to exactly the patched state: what the patch names is replaced, what it
    * does not name is kept, and the page is the first unless only the page was patched. */
  lemma LinksLeadToThePatchedState(current: Params, patch: Patch, cfg: Config, j: Numerals)
    requires Lawful(j) && KeysAreFree(cfg) && Normal(current, cfg, j.format) && NormalPatch(patch, cfg, j.format)
    ensures var p := Parse(AsRaw(Print(Patched(current, patch, j.format), cfg, j)), cfg, j);
            && Normal(p, cfg, j.format)
            && p.q == patch.q.GetOr(current.q) && p.sort == patch.sort.GetOr(current.sort)
            && p.size == patch.size.GetOr(current.size)
            && p.page == (if OnlyPages(patch) then patch.page.GetOr(current.page) else Exactly(1))
            && p.filters == PatchedFilters(current.filters, patch.filters.GetOr(map[]))
    ensures var p := Parse(AsRaw(Print(Patched(current, patch, j.format), cfg, j)), cfg, j);
            var changes := patch.filters.GetOr(map[]);
            forall k :: if k in changes then k in p.filters <==> changes[k].Some? && changes[k].value != ""
                        else k in p.filters <==> k in current.filters
    ensures var p := Parse(AsRaw(Print(Patched(current, patch, j.format), cfg, j)), cfg, j);
            var changes := patch.filters.GetOr(map[]);
            forall k :: k in p.filters ==>
                          p.filters[k] == if k in changes then changes[k].value else current.filters[k]
    ensures (patch.q.Some? || patch.sort.Some? || patch.size.Some? || patch.filters.Some?) ==>
              Parse(AsRaw(Print(Patched(current, patch, j.format), cfg, j)), cfg, j).page == Exactly(1)
  {
    PatchedIsNormal(current, patch, cfg, j.format);
    ParseInvertsPrint(Patched(current, patch, j.format), cfg, j);
  }

  // ---------- what the parser can come to ----------

  lemma {:induction false} TrimHasNoEdges(s: string)
    ensures var t := Trim(s); t != "" ==> !IsSpace(t[0]) && !IsSpace(t[|t| - 1])
    ensures |Trim(s)| <= |s| && Trim(Trim(s)) == Trim(s)
    decreases |s|
  {
    if s != "" {
      if IsSpace(s[0]) {
        TrimHasNoEdges(s[1..]);
      } else if IsSpace(s[|s| - 1]) {
        TrimHasNoEdges(s[..|s| - 1]);
      }
    }
  }

  /** The text is not cut, or not cut right after white space. */
  predicate CutsClean(s: string, max: nat)
    requires max >= 1
  {
    |s| > max ==> !IsSpace(s[max - 1])
  }

  lemma CutIsNormalIff(s: string, max: nat)
    requires max >= 1
    ensures NormalText(Cut(Trim(s), max), max) <==> CutsClean(Trim(s), max)
    ensures Cut(Trim(s), max) == "" <==> Trim(s) == ""
  {
    TrimHasNoEdges(s);
    var t := Trim(s);
    var cut := Cut(t, max);
    if |t| > max {
      assert cut[0] == t[0] && cut[|cut| - 1] == t[max - 1];
      assert Trim(cut) == cut <==> !IsSpace(cut[|cut| - 1]) by {
        TrimHasNoEdges(cut);
      }
    }
  }

  lemma SortIsValid(text: string, cfg: Config)
    ensures ValidSort(SortOf(text, cfg), cfg)
  {
    var (field, dir) := SplitTwo(text);
    if field in cfg.sortFields && (dir == Some("asc") || dir == Some("desc")) {
      assert SortsBy(SortOf(text, cfg), field);
    }
  }

  /** Neither the search nor a filter is cut right after a space. */
  predicate AllCutsClean(raw: Raw, cfg: Config) {
    && CutsClean(Trim(First(raw, "q")), 100)
    && forall k :: k in cfg.filterKeys ==> CutsClean(Trim(First(raw, k)), 60)
  }

  lemma CutTextIsNotNormal(raw: Raw, cfg: Config, j: Numerals)
    requires !AllCutsClean(raw, cfg)
    ensures !Normal(Parse(raw, cfg, j), cfg, j.format)
  {
    CutIsNormalIff(First(raw, "q"), MAX_Q);
    if k :| k in cfg.filterKeys && !CutsClean(Trim(First(raw, k)), MAX_FILTER) {
      CutIsNormalIff(First(raw, k), MAX_FILTER);
      assert k in Parse(raw, cfg, j).filters;
    }
  }

  /** The first value given for a key, without the white space around it and cut to a limit; empty if
    * there is none. */
  ghost predicate IsTextOf(text: string, raw: Raw, k: string, max: nat) {
    var given := if k in raw && raw[k] != [] then raw[k][0] else "";
    && (exists before, after :: Trims(given, before, after))
    && text <= Trim(given) && |text| == if |Trim(given)| <= max then |Trim(given)| else max
  }

  /** Of every parse: the search is the one given, of a hundred characters at most, and the filters are
    * those of the table that are given, of sixty at most. */
  lemma ParsedTexts(raw: Raw, cfg: Config, j: Numerals)
    ensures var p := Parse(raw, cfg, j);
            && IsTextOf(p.q, raw, "q", 100)
            && (forall k :: k in p.filters ==>
                  k in cfg.filterKeys && p.filters[k] != "" && IsTextOf(p.filters[k], raw, k, 60))
            && forall k :: k in cfg.filterKeys && k !in p.filters ==> IsTextOf("", raw, k, 60)
  {
    CutIsTextOf(raw, "q", 100);
    var p := Parse(raw, cfg, j);
    forall k | k in cfg.filterKeys
      ensures IsTextOf(if k in p.filters then p.filters[k] else "", raw, k, 60)
    {
      CutIsTextOf(raw, k, 60);
    }
  }

  lemma CutIsTextOf(raw: Raw, k: string, max: nat)
    ensures IsTextOf(Cut(Trim(First(raw, k)), max), raw, k, max)
  {
    var before, after := TrimSplits(First(raw, k));
  }

  /** What the parts of a sort text are: a field, a direction, and anything else after a colon. */
  predicate SaysSort(text: string, field: string, dir: string, rest: string) {
    && ':' !in field && ':' !in dir && (rest == "" || rest[0] == ':')
    && text == Join(field, dir) + rest
  }

  ghost predicate SaysSortOf(text: string, field: string, dir: string, cfg: Config) {
    field in cfg.sortFields && dir in {"asc", "desc"} && exists rest :: SaysSort(text, field, dir, rest)
  }

  /** A sort text counts exactly when it says a field of the table and a direction; otherwise the sort
    * is the table's own. */
  lemma SortIsRead(text: string, cfg: Config)
    ensures forall field, dir :: SaysSortOf(text, field, dir, cfg) ==> SortOf(text, cfg) == Join(field, dir)
    ensures (forall field, dir :: !SaysSortOf(text, field, dir, cfg)) ==> SortOf(text, cfg) == cfg.defaultSort
  {
    forall field, dir | SaysSortOf(text, field, dir, cfg)
      ensures SortOf(text, cfg) == Join(field, dir)
    {
      var rest :| SaysSort(text, field, dir, rest);
      SplitSays(text, field, dir, rest);
    }
    var (field, dir) := SplitTwo(text);
    if dir.Some? {
      SplitIsSaid(text);
      assert field in cfg.sortFields && dir.value in {"asc", "desc"} ==> SaysSortOf(text, field, dir.value, cfg);
    }
  }

  lemma FindCuts(s: string, c: char)
    ensures var p := Find(s, c);
            && s == s[..p] + s[p..] && c !in s[..p] && (s[p..] == "" || s[p..][0] == c)
            && (p < |s| ==> s[p..] == [c] + s[p + 1..])
  {
  }

  lemma JoinsBack(field: string, dir: string, rest: string)
    ensures field + ([':'] + (dir + rest)) == Join(field, dir) + rest
  {
  }

  lemma SplitIsSaid(text: string)
    requires SplitTwo(text).1.Some?
    ensures exists rest :: SaysSort(text, SplitTwo(text).0, SplitTwo(text).1.value, rest)
  {
    var p := Find(text, ':');
    var tail := text[p + 1..];
    var q := Find(tail, ':');
    FindCuts(text, ':');
    FindCuts(tail, ':');
    JoinsBack(text[..p], tail[..q], tail[q..]);
    assert SaysSort(text, text[..p], tail[..q], tail[q..]);
  }

  lemma SplitSays(text: string, field: string, dir: string, rest: string)
    requires SaysSort(text, field, dir, rest)
    ensures SplitTwo(text) == (field, Some(dir))
  {
    assert text[|field|] == ':' && forall i :: 0 <= i < |field| ==> text[i] == field[i];
    FindIs(text, ':', |field|);
    assert text[..|field|] == field;
    var tail := text[|field| + 1..];
    assert tail == dir + rest;
    FindIs(tail, ':', |dir|);
    assert tail[..|dir|] == dir;
  }

  /** Every query parses into a state of the table, whatever it holds, except that a search or a
    * filter longer than its limit may be cut right after a space: the state is then one that no
    * link reproduces. */
  lemma ParseIsNormalIff(raw: Raw, cfg: Config, j: Numerals)
    requires ReadsFormat(j)
    ensures Normal(Parse(raw, cfg, j), cfg, j.format) <==> AllCutsClean(raw, cfg)
  {
    if AllCutsClean(raw, cfg) {
      CutIsNormalIff(First(raw, "q"), MAX_Q);
      SortIsValid(First(raw, "sort"), cfg);
      ParsedPage(raw, cfg, j);
      forall k | k in cfg.filterKeys
        ensures NormalText(Cut(Trim(First(raw, k)), MAX_FILTER), MAX_FILTER)
        ensures Cut(Trim(First(raw, k)), MAX_FILTER) == "" <==> Trim(First(raw, k)) == ""
      {
        CutIsNormalIff(First(raw, k), MAX_FILTER);
      }
    } else {
      CutTextIsNotNormal(raw, cfg, j);
    }
  }

  /** Of every parse: the page is what is asked for, without its fraction, and at least the first; it is
    * a number of the format unless it reads as Infinity. The size is the one asked for if it is on
    * offer. */
  lemma ParsedPage(raw: Raw, cfg: Config, j: Numerals)
    requires ReadsFormat(j)
    ensures var p := Parse(raw, cfg, j);
            && ValidPage(p.page, j.format)
            && (p.page.Endless? <==> j.number(First(raw, "page")) == PosInfinity)
            && p.take == p.size && ValidSize(p.size, cfg)
    ensures var (page, x) := (Parse(raw, cfg, j).page, j.number(First(raw, "page")));
            page.Exactly? ==> if x.Finite? && x.value >= 1.0 then page.n as real <= x.value < page.n as real + 1.0
                              else page.n == 1
    ensures var (size, x) := (Parse(raw, cfg, j).size, j.number(First(raw, "size")));
            size == if x in {Finite(20.0), Finite(50.0), Finite(100.0)} then x.value.Floor
                    else cfg.defaultSize.GetOr(20)
  {
    SmallIsRepresentable(1, j.format);
  }

  /** The page before, in the format, is finite. */
  lemma BeforeIsFinite(n: nat, f: Format)
    requires n >= 1 && Representable(n, f)
    ensures Round(n - 1, f).Exactly?
    ensures n - 1 <= Pow2(f.bits) ==> Round(n - 1, f) == Exactly(n - 1)
  {
    RoundIsExact(n, f);
    OverflowsIff(n, f);
    OverflowsIff(n - 1, f);
    if n - 1 <= Pow2(f.bits) {
      SmallIsRepresentable(n - 1, f);
      RoundIsExact(n - 1, f);
    }
  }

  /** The product of the page before, in the format, and the size. */
  function Product(n: nat, size: nat, f: Format): (product: nat)
    requires n >= 1 && Round(n - 1, f).Exactly?
    ensures SkipOf(Exactly(n), size, f) == Round(product, f)
  {
    Round(n - 1, f).n * size
  }

  ghost predicate NearestTo(count: Count, n: nat, f: Format) {
    && count.Exactly? && Representable(count.n, f)
    && forall w :: Representable(w, f) ==> Gap(count.n, n) <= Gap(w, n)
  }

  lemma RoundIsNearestTo(n: nat, f: Format)
    ensures if n >= Overflow(f) then Round(n, f).Endless? else NearestTo(Round(n, f), n, f)
  {
    OverflowsIff(n, f);
    if n < Overflow(f) {
      RoundIsRepresentable(n, f);
      forall w | Representable(w, f)
        ensures Gap(Round(n, f).n, n) <= Gap(w, n)
      {
        RoundIsNearest(n, w, f);
      }
    }
  }

  lemma SmallSkip(n: nat, size: nat, f: Format)
    requires n >= 1 && Representable(n, f) && RowsBefore(n, size) <= Pow2(f.bits)
    ensures SkipOf(Exactly(n), size, f) == Exactly(RowsBefore(n, size))
  {
    BeforeIsFinite(n, f);
    SmallIsRepresentable(RowsBefore(n, size), f);
    RoundIsExact(RowsBefore(n, size), f);
    if size > 0 {
      FewerPages(n, size);
      assert Round(n - 1, f) == Exactly(n - 1);
    }
    assert Product(n, size, f) == RowsBefore(n, size);
  }

  lemma FewerPages(n: nat, size: nat)
    requires n >= 1 && size >= 1
    ensures n - 1 <= RowsBefore(n, size)
  {
    ProductsGrow(1, size, n - 1);
  }

  /** Of every parse: skip is Infinity exactly when the page is or the product overflows; otherwise it is
    * the number of the format nearest to the product, and the rows before the page themselves as long
    * as the mantissa holds their number. */
  lemma ParsedSkip(raw: Raw, cfg: Config, j: Numerals)
    requires ReadsFormat(j)
    ensures var p, f := Parse(raw, cfg, j), j.format;
            match p.page
            case Endless => p.skip == if p.size > 0 then Endless else Undefined
            case Exactly(n) =>
              && n >= 1 && Round(n - 1, f).Exactly?
              && (if Product(n, p.size, f) >= Overflow(f) then p.skip.Endless?
                  else NearestTo(p.skip, Product(n, p.size, f), f))
              && (RowsBefore(n, p.size) <= Pow2(f.bits) ==> p.skip == Exactly(RowsBefore(n, p.size)))
            case Undefined => false
  {
    ParsedPage(raw, cfg, j);
    var p, f := Parse(raw, cfg, j), j.format;
    if p.page.Exactly? {
      var n := p.page.n;
      BeforeIsFinite(n, f);
      RoundIsNearestTo(Product(n, p.size, f), f);
      if RowsBefore(n, p.size) <= Pow2(f.bits) {
        SmallSkip(n, p.size, f);
      }
    }
  }

  /** A finite page whose skip is Infinity: half the least power that is too great. */
  lemma HugePageExample(raw: Raw, cfg: Config, j: Numerals)
    requires ReadsFormat(j) && cfg.defaultSize.None?
    requires j.number(First(raw, "page")) == Finite(Pow2(j.format.top - 1) as real)
    ensures Parse(raw, cfg, j).page.Exactly? && Parse(raw, cfg, j).skip.Endless?
  {
    var p, f := Parse(raw, cfg, j), j.format;
    ParsedPage(raw, cfg, j);
    assert p.page == Exactly(Pow2(f.top - 1));
    HugeSkip(p.size, f);
  }

  lemma HugeSkip(size: nat, f: Format)
    requires size >= 20
    ensures SkipOf(Exactly(Pow2(f.top - 1)), size, f).Endless?
  {
    var n := Pow2(f.top - 1);
    PowerIsRepresentable(f.top - 1, f);
    BeforeIsFinite(n, f);
    RoundIsNearest(n - 1, n, f);
    HugeProduct(Round(n - 1, f).n, size, f);
    OverflowsIff(Product(n, size, f), f);
  }

  lemma HugeProduct(before: nat, size: nat, f: Format)
    requires before >= Pow2(f.top - 1) - 2 && size >= 20
    ensures before * size >= Overflow(f)
  {
    Pow2Grows(2, f.top - 1);
    ProductsGrow(20, size, before);
    assert before * 20 <= before * size;
  }

  /** A search of 99 letters, a space and another letter is cut after the space. */
  lemma CutSearchExample(cfg: Config, j: Numerals)
    ensures !Normal(Parse(map["q" := [seq(99, i => 'a') + " b"]], cfg, j), cfg, j.format)
  {
    var s := seq(99, i => 'a') + " b";
    var raw := map["q" := [s]];
    assert |s| == 101 && s[0] == 'a' && s[99] == ' ' && s[100] == 'b';
    assert Trim(s) == s;
    CutTextIsNotNormal(raw, cfg, j);
  }
}
