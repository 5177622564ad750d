/** The tools/list cache and its cursor pages (internal/mcp/tools.go,
    internal/mcp/server.go). */
module ToolList {
  import opened JsonValue
  import opened Text

  const DEFAULT_PAGE_SIZE := 80
  const DEFAULT_PRIORITY := 50
  const MAX_INT := 0x7fff_ffff_ffff_ffff

  datatype OutputSchema = Compact | Full(schema: Json)

  datatype Tool = Tool(name: string, priority: Option<int>, outputSchema: OutputSchema, rest: Json)

  datatype Descriptor = Descriptor(tool: Tool, advertiseOutputSchema: bool)

  type Registry = map<string, Descriptor>

  // ---------------------------------------------------------------------
  // The order of tools
  // ---------------------------------------------------------------------

  datatype Item = Item(name: string, tool: Tool, prio: int)

  predicate Below(a: string, b: string) {
    b != [] && (a == [] || a[0] < b[0] || (a[0] == b[0] && Below(a[1..], b[1..])))
  }

  /** One name is below another exactly if it is a proper start of it, or smaller at
      the first place at which they differ. */
  lemma {:induction false} BelowExactly(a: string, b: string)
    ensures Below(a, b) <==>
            exists n: nat :: n <= |a| && n < |b| && a[..n] == b[..n] && (n == |a| || a[n] < b[n])
  {
    if b == [] {
    } else if a == [] || a[0] < b[0] {
      assert a[..0] == b[..0];
    } else if a[0] == b[0] {
      BelowExactly(a[1..], b[1..]);
      if Below(a[1..], b[1..]) {
        var c, d := a[1..], b[1..];
        var n: nat :| n <= |c| && n < |d| && c[..n] == d[..n] && (n == |c| || c[n] < d[n]);
        assert a[..n + 1] == [a[0]] + c[..n] && b[..n + 1] == [b[0]] + d[..n];
      }
      if n: nat :| n <= |a| && n < |b| && a[..n] == b[..n] && (n == |a| || a[n] < b[n]) {
        assert n > 0;
        assert a[1..][..n - 1] == a[..n][1..] && b[1..][..n - 1] == b[..n][1..];
      }
    } else {
      assert forall n: nat :: 0 < n <= |a| && n < |b| ==> a[..n][0] == a[0] && b[..n][0] == b[0];
    }
  }

  lemma {:induction false} BelowIsTotal(a: string, b: string)
    ensures a == b || Below(a, b) || Below(b, a)
    ensures !(a == b && Below(a, b)) && !(Below(a, b) && Below(b, a))
  {
    if a != [] && b != [] && a[0] == b[0] {
      BelowIsTotal(a[1..], b[1..]);
      assert a == [a[0]] + a[1..] && b == [b[0]] + b[1..];
    }
  }

  lemma {:induction false} BelowIsTransitive(a: string, b: string, c: string)
    requires Below(a, b) && Below(b, c)
    ensures Below(a, c)
  {
    if a != [] && a[0] == b[0] == c[0] {
      BelowIsTransitive(a[1..], b[1..], c[1..]);
    }
  }

  /** The comparison of the sort: by priority, then by name; by name alone when no
      tool has a priority. */
  predicate Before(byPriority: bool, a: Item, b: Item) {
    if byPriority && a.prio != b.prio then a.prio < b.prio else Below(a.name, b.name)
  }

  lemma BeforeIsTotal(byPriority: bool, a: Item, b: Item)
    ensures a.name == b.name || Before(byPriority, a, b) || Before(byPriority, b, a)
    ensures !(Before(byPriority, a, b) && Before(byPriority, b, a)) && !Before(byPriority, a, a)
  {
    BelowIsTotal(a.name, b.name);
    BelowIsTotal(a.name, a.name);
  }

  lemma BeforeIsTransitive(byPriority: bool, a: Item, b: Item, c: Item)
    requires Before(byPriority, a, b) && Before(byPriority, b, c)
    ensures Before(byPriority, a, c)
  {
    if Below(a.name, b.name) && Below(b.name, c.name) {
      BelowIsTransitive(a.name, b.name, c.name);
    }
  }

  ghost predicate Sorted(byPriority: bool, items: seq<Item>) {
    forall i, j :: 0 <= i < j < |items| ==> Before(byPriority, items[i], items[j])
  }

  ghost predicate SameElements(items: seq<Item>, s: set<Item>) {
    forall x :: x in items <==> x in s
  }

  /** There is only one way to list a set in order, so neither the iteration order
      of the map nor the sorting algorithm can be observed. */
  lemma {:induction false} SortedListIsUnique(byPriority: bool, a: seq<Item>, b: seq<Item>, s: set<Item>)
    requires Sorted(byPriority, a) && Sorted(byPriority, b) && SameElements(a, s) && SameElements(b, s)
    ensures a == b
    decreases |a|
  {
    EmptyTogether(a, b, s);
    if a != [] {
      FirstIsLeast(byPriority, a, s, b[0]);
      FirstIsLeast(byPriority, b, s, a[0]);
      BeforeIsTotal(byPriority, a[0], b[0]);
      WithoutFirst(byPriority, a, s);
      WithoutFirst(byPriority, b, s);
      SortedListIsUnique(byPriority, a[1..], b[1..], s - {a[0]});
      assert a == [a[0]] + a[1..] && b == [b[0]] + b[1..];
    }
  }

  lemma EmptyTogether(a: seq<Item>, b: seq<Item>, s: set<Item>)
    requires SameElements(a, s) && SameElements(b, s)
    ensures a == [] <==> b == []
  {
    if a != [] {
      assert a[0] in b;
    }
    if b != [] {
      assert b[0] in a;
    }
  }

  lemma FirstIsLeast(byPriority: bool, items: seq<Item>, s: set<Item>, x: Item)
    requires Sorted(byPriority, items) && SameElements(items, s) && items != [] && x in s
    ensures x == items[0] || Before(byPriority, items[0], x)
  {
    assert x in items;
  }

  lemma WithoutFirst(byPriority: bool, items: seq<Item>, s: set<Item>)
    requires Sorted(byPriority, items) && SameElements(items, s) && items != []
    ensures Sorted(byPriority, items[1..]) && SameElements(items[1..], s - {items[0]})
  {
    var rest := items[1..];
    assert items == [items[0]] + rest;
    forall x
      ensures x in rest <==> x in s - {items[0]}
    {
      assert x in items <==> x == items[0] || x in rest;
      if items[0] in rest {
        var i :| 0 <= i < |rest| && rest[i] == items[0];
        assert Before(byPriority, items[0], items[i + 1]);
        BeforeIsTotal(byPriority, items[0], items[0]);
      }
    }
  }

  // ---------------------------------------------------------------------
  // Sorting
  // ---------------------------------------------------------------------

  function Insert(byPriority: bool, x: Item, items: seq<Item>): seq<Item> {
    if items == [] then [x]
    else if Before(byPriority, x, items[0]) then [x] + items
    else [items[0]] + Insert(byPriority, x, items[1..])
  }

  lemma {:induction false} InsertKeepsOrder(byPriority: bool, x: Item, items: seq<Item>)
    requires Sorted(byPriority, items) && forall y :: y in items ==> y.name != x.name
    ensures Sorted(byPriority, Insert(byPriority, x, items))
    ensures forall y :: y in Insert(byPriority, x, items) <==> y == x || y in items
  {
    if items == [] {
    } else if Before(byPriority, x, items[0]) {
      forall j | 0 <= j < |items|
        ensures Before(byPriority, x, items[j])
      {
        if j > 0 {
          BeforeIsTransitive(byPriority, x, items[0], items[j]);
        }
      }
    } else {
      InsertKeepsOrder(byPriority, x, items[1..]);
      BeforeIsTotal(byPriority, x, items[0]);
      assert items == [items[0]] + items[1..];
      assert items[0] in items;
      forall y | y in Insert(byPriority, x, items[1..])
        ensures Before(byPriority, items[0], y)
      {
      }
    }
  }

  ghost predicate DistinctNames(s: set<Item>) {
    forall x, y :: x in s && y in s && x.name == y.name ==> x == y
  }

  /** The items in order, taken from the set one by one. */
  ghost function InOrder(byPriority: bool, s: set<Item>): (items: seq<Item>)
    requires DistinctNames(s)
    ensures Sorted(byPriority, items) && SameElements(items, s)
  {
    if s == {} then [] else
      var x :| x in s;
      var rest := InOrder(byPriority, s - {x});
      InsertKeepsOrder(byPriority, x, rest);
      Insert(byPriority, x, rest)
  }

  ghost predicate NoRepeats(items: seq<Item>) {
    forall i, j :: 0 <= i < j < |items| ==> items[i] != items[j]
  }

  /** Stands for the library's sort. */
  method SortItems(byPriority: bool, items: seq<Item>, ghost s: set<Item>) returns (sorted: seq<Item>)
    requires SameElements(items, s) && DistinctNames(s)
    requires NoRepeats(items)
    ensures Sorted(byPriority, sorted) && SameElements(sorted, s)
  {
    sorted := [];
    for i := 0 to |items|
      invariant Sorted(byPriority, sorted)
      invariant forall x :: x in sorted <==> x in items[..i]
    {
      forall y | y in sorted
        ensures y.name != items[i].name
      {
        var k :| 0 <= k < i && items[k] == y;
        assert y in items && items[i] in items;
        assert y in s && items[i] in s;
      }
      InsertKeepsOrder(byPriority, items[i], sorted);
      sorted := Insert(byPriority, items[i], sorted);
      assert items[..i + 1] == items[..i] + [items[i]];
    }
    assert items[..|items|] == items;
  }

  // ---------------------------------------------------------------------
  // The list a fresh rebuild gives
  // ---------------------------------------------------------------------

  predicate Visible(advertised: Option<set<string>>, name: string) {
    advertised.None? || name in advertised.value
  }

  function ItemOf(name: string, d: Descriptor): Item {
    var prio := if d.tool.priority.Some? then d.tool.priority.value else DEFAULT_PRIORITY;
    Item(name, if d.advertiseOutputSchema then d.tool else d.tool.(outputSchema := Compact), prio)
  }

  ghost function AdvertisedItems(tools: Registry, advertised: Option<set<string>>): (s: set<Item>)
    ensures DistinctNames(s)
  {
    set name | name in tools && Visible(advertised, name) :: ItemOf(name, tools[name])
  }

  /** `items` holds each advertised tool among the names `done`, once. */
  ghost predicate Collected(items: seq<Item>, tools: Registry, advertised: Option<set<string>>, done: set<string>) {
    && (forall x :: x in items <==>
          x.name in done && x.name in tools && Visible(advertised, x.name) && x == ItemOf(x.name, tools[x.name]))
    && NoRepeats(items)
  }

  lemma NothingCollected(tools: Registry, advertised: Option<set<string>>)
    ensures Collected([], tools, advertised, {})
  {
  }

  lemma CollectOne(items: seq<Item>, tools: Registry, advertised: Option<set<string>>, done: set<string>, name: string)
    requires Collected(items, tools, advertised, done) && name in tools && name !in done
    ensures !Visible(advertised, name) ==> Collected(items, tools, advertised, done + {name})
    ensures Visible(advertised, name) ==>
              Collected(items + [ItemOf(name, tools[name])], tools, advertised, done + {name})
  {
  }

  lemma CollectedAll(items: seq<Item>, tools: Registry, advertised: Option<set<string>>)
    requires Collected(items, tools, advertised, tools.Keys)
    ensures SameElements(items, AdvertisedItems(tools, advertised)) && NoRepeats(items)
  {
  }

  function ToolsOf(items: seq<Item>): (tools: seq<Tool>)
    ensures |tools| == |items| && forall i :: 0 <= i < |items| ==> tools[i] == items[i].tool
  {
    if items == [] then [] else ToolsOf(items[..|items| - 1]) + [items[|items| - 1].tool]
  }

  ghost function Rebuilt(tools: Registry, advertised: Option<set<string>>): seq<Tool> {
    ToolsOf(InOrder(true, AdvertisedItems(tools, advertised)))
  }

  /** Sorting by name alone is sorting by priority and name when no tool has a
      priority, since all then have the default one. */
  lemma OrderWithoutPriorities(items: seq<Item>, s: set<Item>)
    requires Sorted(false, items) && SameElements(items, s) && forall x :: x in s ==> x.prio == DEFAULT_PRIORITY
    ensures Sorted(true, items)
  {
    forall i, j | 0 <= i < j < |items|
      ensures Before(true, items[i], items[j])
    {
      assert items[i] in items && items[j] in items;
    }
  }

  lemma AllDefault(items: seq<Item>, s: set<Item>)
    requires SameElements(items, s) && forall x :: x in items ==> x.prio == DEFAULT_PRIORITY
    ensures forall x :: x in s ==> x.prio == DEFAULT_PRIORITY
  {
  }

  function PriorityOf(tool: Tool): int {
    if tool.priority.Some? then tool.priority.value else 50
  }

  predicate Advertises(tools: Registry, advertised: Option<set<string>>, name: string) {
    name in tools && (advertised == None || name in advertised.value)
  }

  ghost predicate NamedByKey(tools: Registry) {
    forall name :: name in tools ==> tools[name].tool.name == name
  }

  /** An advertised tool, with its own output schema or the compact one. */
  ghost predicate Listed(tools: Registry, advertised: Option<set<string>>, t: Tool) {
    && Advertises(tools, advertised, t.name)
    && var d := tools[t.name];
       t == if d.advertiseOutputSchema then d.tool else d.tool.(outputSchema := Compact)
  }

  ghost predicate ComesBefore(a: Tool, b: Tool) {
    PriorityOf(a) < PriorityOf(b) || (PriorityOf(a) == PriorityOf(b) && Below(a.name, b.name))
  }

  ghost predicate Ordered(list: seq<Tool>) {
    forall i, j :: 0 <= i < j < |list| ==> ComesBefore(list[i], list[j])
  }

  /** The list in the source's own terms: exactly the advertised tools, lower priorities
      first (50 by default), names in order among equals. */
  lemma RebuiltExactly(tools: Registry, advertised: Option<set<string>>)
    requires NamedByKey(tools)
    ensures var list := Rebuilt(tools, advertised);
            && (forall t :: t in list <==> Listed(tools, advertised, t))
            && Ordered(list)
  {
    var s := AdvertisedItems(tools, advertised);
    var items := InOrder(true, s);
    forall x
      ensures x in items <==> IsItem(tools, advertised, x)
    {
      ItemsAreListed(tools, advertised, x);
    }
    assert Rebuilt(tools, advertised) == ToolsOf(items);
    hide *;
    ToolsAreListed(tools, advertised, items);
    ToolsInOrder(tools, advertised, items);
  }

  ghost predicate IsItem(tools: Registry, advertised: Option<set<string>>, x: Item) {
    Listed(tools, advertised, x.tool) && x.name == x.tool.name && x.prio == PriorityOf(x.tool)
  }

  lemma ItemsAreListed(tools: Registry, advertised: Option<set<string>>, x: Item)
    requires NamedByKey(tools)
    ensures x in AdvertisedItems(tools, advertised) <==> IsItem(tools, advertised, x)
  {
    if x in AdvertisedItems(tools, advertised) {
      var name :| name in tools && Visible(advertised, name) && x == ItemOf(name, tools[name]);
    }
    if IsItem(tools, advertised, x) {
      assert x == ItemOf(x.name, tools[x.name]);
    }
  }

  lemma ToolsAreListed(tools: Registry, advertised: Option<set<string>>, items: seq<Item>)
    requires forall x :: x in items <==> IsItem(tools, advertised, x)
    ensures forall t :: t in ToolsOf(items) <==> Listed(tools, advertised, t)
  {
    hide Listed, ToolsOf;
    var list := ToolsOf(items);
    forall t
      ensures t in list <==> Listed(tools, advertised, t)
    {
      if t in list {
        var i :| 0 <= i < |list| && list[i] == t;
        assert items[i] in items;
      }
      if Listed(tools, advertised, t) {
        var x := Item(t.name, t, PriorityOf(t));
        assert IsItem(tools, advertised, x);
        var i :| 0 <= i < |items| && items[i] == x;
        assert list[i] in list;
      }
    }
  }

  lemma ToolsInOrder(tools: Registry, advertised: Option<set<string>>, items: seq<Item>)
    requires Sorted(true, items) && forall x :: x in items <==> IsItem(tools, advertised, x)
    ensures Ordered(ToolsOf(items))
  {
    hide Listed, ToolsOf;
    var list := ToolsOf(items);
    forall i, j | 0 <= i < j < |list|
      ensures ComesBefore(list[i], list[j])
    {
      assert items[i] in items && items[j] in items;
      assert Before(true, items[i], items[j]);
    }
  }

  // ---------------------------------------------------------------------
  // Pages
  // ---------------------------------------------------------------------

  datatype ListResult = ListResult(tools: seq<Tool>, nextCursor: string)

  function Clamp(n: int, high: int): int
    requires high >= 0
  {
    if n < 0 then 0 else if n > high then high else n
  }

  /** At most `size` tools from the cursor on, and where to go on if any are left. */
  ghost function PageAt(list: seq<Tool>, cursor: int, size: int): ListResult
    requires size >= 1
  {
    var from := Clamp(cursor, |list|);
    var to := Clamp(from + size, |list|);
    ListResult(list[from..to], if to < |list| then Decimal(to) else "")
  }

  /** Place by place: the tools from the cursor on, as many as a page holds, and a
      cursor behind the last of them exactly if any are left. */
  lemma {:induction false} PageExactly(list: seq<Tool>, cursor: nat, size: int)
    requires size >= 1
    ensures var page := PageAt(list, cursor, size);
            && |page.tools| <= size && (page.tools != [] ==> cursor + |page.tools| <= |list|)
            && (|page.tools| == size || cursor + |page.tools| >= |list|)
            && (forall i: nat :: i < |page.tools| ==> page.tools[i] == list[cursor + i])
            && (page.nextCursor != "" <==> cursor + size < |list|)
            && (page.nextCursor != "" ==> Digits(page.nextCursor) == Some(cursor + size))
    ensures forall before :: before < 0 ==> PageAt(list, before, size) == PageAt(list, 0, size)
  {
    var page := PageAt(list, cursor, size);
    if cursor + size < |list| {
      DigitsOfDecimal(cursor + size);
    }
    hide Decimal, Digits;
  }

  function Atoi(s: string): Option<int> {
    match Digits(if s != "" && s[0] in {'+', '-'} then s[1..] else s)
    case None => None
    case Some(n) =>
      var size: int := n;
      var value := if s[0] == '-' then -size else size;
      if -MAX_INT - 1 <= value <= MAX_INT then Some(value) else None
  }

  /** `None` is the invalid-params error. */
  function ParseToolsListCursor(raw: Json): Option<int> {
    if raw == Null then Some(0)
    else if !raw.Obj? then None
    else if "cursor" !in raw.members || raw.members["cursor"] == Null then Some(0)
    else if !raw.members["cursor"].Str? then None
    else
      match Atoi(TrimSpace(raw.members["cursor"].s))
      case None => None
      case Some(n) => if n < 0 then None else Some(n)
  }

  /** A cursor is read exactly if it is, white space aside, a numeral of ASCII digits,
      maybe signed, whose value is neither negative nor beyond 64 bits. */
  lemma {:induction false} CursorExactly(raw: Json, n: int)
    ensures ParseToolsListCursor(raw) == Some(n) <==>
            || (n == 0 && raw == Null)
            || (n == 0 && raw.Obj? && ("cursor" in raw.members ==> raw.members["cursor"] == Null))
            || (raw.Obj? && "cursor" in raw.members && raw.members["cursor"].Str?
                && IsNumeral(TrimSpace(raw.members["cursor"].s), n) && 0 <= n <= 0x7fff_ffff_ffff_ffff)
  {
  }

  /** The text is a numeral for `n`. */
  ghost predicate IsNumeral(text: string, n: int) {
    var signed := text != "" && (text[0] == '+' || text[0] == '-');
    var digits := Digits(if signed then text[1..] else text);
    digits.Some? && n == if signed && text[0] == '-' then -(digits.value as int) else digits.value
  }

  ghost function CursorParams(text: string): Json {
    Obj(map["cursor" := Str(text)])
  }

  /** A cursor the server hands out is read back as the offset it stands for. */
  lemma CursorRoundTrip(n: nat)
    requires n <= MAX_INT
    ensures ParseToolsListCursor(CursorParams(Decimal(n))) == Some(n)
  {
    var text := Decimal(n);
    DigitsOfDecimal(n);
    DecimalIsPlain(n);
    DigitIsNoSpace(text[0]);
    DigitIsNoSpace(text[|text| - 1]);
    hide IsSpace;
    hide Digits;
    hide Decimal;
    assert '0' <= text[0] <= '9' && '0' <= text[|text| - 1] <= '9';
    assert TrimSpace(text) == text;
  }

  /** What a client collects that asks with no cursor first and then follows
      `nextCursor`; `None` when it is refused or still has pages to fetch after
      `requests` requests. */
  ghost function Follow(list: seq<Tool>, size: int, params: Json, requests: nat): Option<seq<Tool>>
    requires size >= 1
    decreases requests
  {
    var cursor := ParseToolsListCursor(params);
    if requests == 0 || cursor.None? then None
    else
      var page := PageAt(list, cursor.value, size);
      if page.nextCursor == "" then Some(page.tools)
      else
        match Follow(list, size, CursorParams(page.nextCursor), requests - 1)
        case None => None
        case Some(others) => Some(page.tools + others)
  }

  /** One page: the tools up to the next offset, which is past the cursor. */
  lemma PageFacts(list: seq<Tool>, cursor: nat, size: int) returns (to: nat)
    requires size >= 1 && cursor <= |list|
    ensures to == if cursor + size < |list| then cursor + size else |list|
    ensures PageAt(list, cursor, size) == ListResult(list[cursor..to], if to < |list| then Decimal(to) else "")
    ensures to < |list| ==> Decimal(to) != ""
  {
    to := Clamp(cursor + size, |list|);
    DigitsOfDecimal(to);
  }

  lemma FewerRequests(requests: int, size: int)
    requires requests >= 1 && size >= 1
    ensures requests * size == (requests - 1) * size + size
    ensures requests == 1 ==> requests * size == size
  {
  }

  lemma {:induction false} FollowFrom(list: seq<Tool>, size: int, params: Json, cursor: nat, requests: nat)
    requires size >= 1 && |list| <= MAX_INT
    requires ParseToolsListCursor(params) == Some(cursor) && cursor <= |list|
    requires requests >= 1 && |list| - cursor <= requests * size
    ensures Follow(list, size, params, requests) == Some(list[cursor..])
    decreases requests
  {
    hide ParseToolsListCursor;
    hide CursorParams;
    hide PageAt;
    hide Decimal;
    var to := PageFacts(list, cursor, size);
    FewerRequests(requests, size);
    if to < |list| {
      CursorRoundTrip(to);
      FollowFrom(list, size, CursorParams(Decimal(to)), to, requests - 1);
      assert list[cursor..] == list[cursor..to] + list[to..];
    } else {
      assert list[cursor..to] == list[cursor..];
    }
  }

  /** Following the cursors ends within one request per `size` tools, with the
      whole list, each tool once and in order. */
  lemma FollowingCursorsCollectsAll(list: seq<Tool>, size: int, requests: nat)
    requires size >= 1 && |list| <= MAX_INT && requests >= 1 && |list| <= requests * size
    ensures Follow(list, size, Null, requests) == Some(list)
  {
    FollowFrom(list, size, Null, 0, requests);
    assert list[0..] == list;
  }

  // ---------------------------------------------------------------------
  // The server
  // ---------------------------------------------------------------------

  class Server {
    const tools: Registry
    const toolsListPageSize: int
    var advertised: Option<set<string>>
    var toolListCache: seq<Tool>
    var toolListCacheValid: bool
    var toolListResult: ListResult
    var toolListResultValid: bool

    /** The list a client must see now. */
    ghost function Current(): seq<Tool>
      reads this
    {
      Rebuilt(tools, advertised)
    }

    function PageSize(): (size: int)
      ensures size >= 1
      ensures size == if toolsListPageSize > 0 then toolsListPageSize else 80
    {
      if toolsListPageSize <= 0 then DEFAULT_PAGE_SIZE else toolsListPageSize
    }

    ghost predicate Valid()
      reads this
    {
      && (toolListCacheValid ==> toolListCache == Current())
      && (toolListResultValid ==> toolListCacheValid && toolListResult == PageAt(Current(), 0, PageSize()))
    }

    constructor (descriptors: seq<Descriptor>, toolsListPageSize: int)
      ensures Valid() && advertised == None && this.toolsListPageSize == toolsListPageSize
      ensures forall name :: name in tools <==> exists d :: d in descriptors && d.tool.name == name
      ensures forall name :: name in tools ==> tools[name] in descriptors && tools[name].tool.name == name
      ensures forall i :: 0 <= i < |descriptors| &&
                (forall j :: i < j < |descriptors| ==> descriptors[j].tool.name != descriptors[i].tool.name)
                ==> tools[descriptors[i].tool.name] == descriptors[i]
    {
      var toolMap: Registry := map[];
      for i := 0 to |descriptors|
        invariant forall j :: 0 <= j < i ==> descriptors[j].tool.name in toolMap
        invariant forall name :: name in toolMap ==> toolMap[name] in descriptors && toolMap[name].tool.name == name
        invariant forall j :: 0 <= j < i &&
                    (forall k :: j < k < i ==> descriptors[k].tool.name != descriptors[j].tool.name)
                    ==> toolMap[descriptors[j].tool.name] == descriptors[j]
      {
        toolMap := toolMap[descriptors[i].tool.name := descriptors[i]];
      }
      tools := toolMap;
      this.toolsListPageSize := toolsListPageSize;
      advertised := None;
      toolListCache, toolListCacheValid := [], false;
      toolListResult, toolListResultValid := ListResult([], ""), false;
    }

    method BuildToolList() returns (list: seq<Tool>)
      ensures list == Current()
    {
      hide Collected;
      hide Sorted;
      hide SameElements;
      hide DistinctNames;
      hide AdvertisedItems;
      hide InOrder;
      hide NoRepeats;
      ghost var all := AdvertisedItems(tools, advertised);
      var items: seq<Item> := [];
      var priorityAware := false;
      var pending := tools.Keys;
      NothingCollected(tools, advertised);
      assert tools.Keys - pending == {};
      while pending != {}
        invariant pending <= tools.Keys
        invariant Collected(items, tools, advertised, tools.Keys - pending)
        invariant !priorityAware ==> forall x :: x in items ==> x.prio == DEFAULT_PRIORITY
        decreases |pending|
      {
        var name :| name in pending;
        CollectOne(items, tools, advertised, tools.Keys - pending, name);
        assert tools.Keys - (pending - {name}) == tools.Keys - pending + {name};
        pending := pending - {name};
        if advertised.Some? && name !in advertised.value {
          continue;
        }
        var descriptor := tools[name];
        var prio := DEFAULT_PRIORITY;
        if descriptor.tool.priority.Some? {
          prio := descriptor.tool.priority.value;
          priorityAware := true;
        }
        var tool := descriptor.tool;
        if !descriptor.advertiseOutputSchema {
          tool := tool.(outputSchema := Compact);
        }
        items := items + [Item(name, tool, prio)];
      }
      assert tools.Keys - pending == tools.Keys;
      CollectedAll(items, tools, advertised);
      ghost var collected := items;
      items := SortItems(priorityAware, items, all);
      if !priorityAware {
        AllDefault(collected, all);
        OrderWithoutPriorities(items, all);
      }
      SortedListIsUnique(true, items, InOrder(true, all), all);
      list := [];
      for i := 0 to |items|
        invariant list == ToolsOf(items[..i])
      {
        list := list + [items[i].tool];
        assert items[..i + 1][..i] == items[..i];
      }
      assert items[..|items|] == items;
    }

    method ListTools() returns (list: seq<Tool>)
      requires Valid()
      modifies this
      ensures Valid() && advertised == old(advertised)
      ensures list == Current()
    {
      if toolListCacheValid {
        return toolListCache;
      }
      toolListCache := BuildToolList();
      toolListCacheValid := true;
      return toolListCache;
    }

    method ToolsListPage(cursor: int) returns (result: ListResult)
      requires Valid() && toolListCacheValid
      ensures result == PageAt(Current(), cursor, PageSize())
    {
      var from := cursor;
      if from < 0 {
        from := 0;
      }
      if from > |toolListCache| {
        from := |toolListCache|;
      }
      var end := |toolListCache|;
      if PageSize() > 0 && |toolListCache| > PageSize() && from + PageSize() < end {
        end := from + PageSize();
      }
      result := ListResult(toolListCache[from..end], "");
      if end < |toolListCache| {
        result := result.(nextCursor := Decimal(end));
      }
    }

    /** The cached answer to a request without parameters. */
    method ToolsListResult() returns (result: ListResult)
      requires Valid()
      modifies this
      ensures Valid() && advertised == old(advertised)
      ensures result == PageAt(Current(), 0, PageSize())
    {
      if toolListResultValid {
        return toolListResult;
      }
      if !toolListCacheValid {
        toolListCache := BuildToolList();
        toolListCacheValid := true;
      }
      var page := ToolsListPage(0);
      toolListResult := page;
      toolListResultValid := true;
      return toolListResult;
    }

    /** `None` is the invalid-params error. */
    method HandleToolsList(raw: Json) returns (result: Option<ListResult>)
      requires Valid()
      modifies this
      ensures Valid() && advertised == old(advertised)
      ensures result == match ParseToolsListCursor(raw)
                        case None => None
                        case Some(cursor) => Some(PageAt(Current(), cursor, PageSize()))
    {
      var cursor := ParseToolsListCursor(raw);
      if cursor.None? {
        return None;
      }
      if !toolListCacheValid {
        toolListCache := BuildToolList();
        toolListCacheValid := true;
      }
      var page := ToolsListPage(cursor.value);
      return Some(page);
    }

    method InvalidateToolListCache()
      modifies this
      ensures Valid() && advertised == old(advertised)
    {
      toolListCache := [];
      toolListCacheValid := false;
      toolListResult := ListResult([], "");
      toolListResultValid := false;
    }

    /** `None` advertises every tool. */
    method SetAdvertisedTools(descriptors: Option<seq<Descriptor>>)
      modifies this
      ensures Valid()
      ensures descriptors.None? ==> advertised == None
      ensures descriptors.Some? ==> advertised.Some?
      ensures descriptors.Some? ==>
                forall name :: name in advertised.value <==> exists d :: d in descriptors.value && d.tool.name == name
    {
      if descriptors.None? {
        advertised := None;
        InvalidateToolListCache();
        return;
      }
      var visible: set<string> := {};
      for i := 0 to |descriptors.value|
        invariant forall j :: 0 <= j < i ==> descriptors.value[j].tool.name in visible
        invariant forall name :: name in visible ==> exists d :: d in descriptors.value && d.tool.name == name
      {
        visible := visible + {descriptors.value[i].tool.name};
      }
      advertised := Some(visible);
      InvalidateToolListCache();
    }
  }
}
