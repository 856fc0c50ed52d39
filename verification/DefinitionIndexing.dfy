/** The compiled definition index: an in-place route table that answers like a linear scan. */
module DefinitionIndexing {
  import opened Wrappers
  import opened Model
  import opened Keys
  import opened Rules
  import opened Routing
  import opened DefinitionView

  // ----- Order on definition IDs -----

  /** Lexicographic order on texts. */
  predicate TextBefore(a: string, b: string) {
    b != "" && (a == "" || a[0] < b[0] || (a[0] == b[0] && TextBefore(a[1..], b[1..])))
  }

  lemma {:induction false} TextOrderIsTotal(a: string, b: string)
    ensures a == b || TextBefore(a, b) || TextBefore(b, a)
    ensures !(TextBefore(a, b) && TextBefore(b, a))
    ensures a == b ==> !TextBefore(a, b)
  {
    if a != "" && b != "" {
      TextOrderIsTotal(a[1..], b[1..]);
      assert a == [a[0]] + a[1..] && b == [b[0]] + b[1..];
    }
  }

  lemma {:induction false} TextOrderIsTransitive(a: string, b: string, c: string)
    requires TextBefore(a, b) && TextBefore(b, c)
    ensures TextBefore(a, c)
  {
    if a != "" && a[0] == b[0] && b[0] == c[0] {
      TextOrderIsTransitive(a[1..], b[1..], c[1..]);
    }
  }

  /** The texts agree up to k, and there the first has the smaller character. */
  predicate SmallerAt(a: string, b: string, k: int) {
    0 <= k < |a| && k < |b| && a[..k] == b[..k] && a[k] < b[k]
  }

  lemma {:induction false} SmallerLater(a: string, b: string, k: int)
    requires a != "" && b != "" && a[0] == b[0]
    ensures SmallerAt(a[1..], b[1..], k - 1) <==> SmallerAt(a, b, k)
  {
    if 0 < k < |a| && k < |b| {
      var x, y := a[1..][..k - 1], b[1..][..k - 1];
      assert a[..k] == [a[0]] + x && b[..k] == [b[0]] + y;
      assert x == a[..k][1..] && y == b[..k][1..];
      assert a[1..][k - 1] == a[k] && b[1..][k - 1] == b[k];
    }
  }

  lemma {:induction false} BeginsLater(a: string, b: string)
    requires a != "" && b != "" && a[0] == b[0]
    ensures a[1..] < b[1..] <==> a < b
  {
    assert a == [a[0]] + a[1..] && b == [b[0]] + b[1..];
    if a[1..] < b[1..] {
      assert forall i :: 0 <= i < |a| ==> a[i] == if i == 0 then b[0] else b[1..][i - 1];
    }
  }

  /** The first difference decides, and a beginning comes before what it begins. */
  lemma {:induction false} TextOrderExactly(a: string, b: string)
    ensures TextBefore(a, b) <==> a < b || exists k :: SmallerAt(a, b, k)
  {
    if a != "" && b != "" && a[0] == b[0] {
      TextOrderExactly(a[1..], b[1..]);
      BeginsLater(a, b);
      if k :| SmallerAt(a[1..], b[1..], k) {
        SmallerLater(a, b, k + 1);
      }
      if k :| SmallerAt(a, b, k) {
        SmallerLater(a, b, k);
      }
    } else if a != "" && b != "" && a[0] < b[0] {
      assert SmallerAt(a, b, 0);
    }
  }

  /** No later ID comes before an earlier one. */
  predicate SortedById(cs: seq<Compiled>) {
    forall i, j :: 0 <= i < j < |cs| ==> !TextBefore(cs[j].definition.id, cs[i].definition.id)
  }

  predicate SameMembers<T(==)>(xs: seq<T>, ys: seq<T>) {
    |xs| == |ys| && multiset(xs) == multiset(ys)
  }

  lemma {:induction false} SameMembersMeans<T>(xs: seq<T>, ys: seq<T>)
    requires SameMembers(xs, ys)
    ensures forall x :: x in xs <==> x in ys
  {
    forall x ensures x in xs <==> x in ys {
      assert x in multiset(xs) <==> x in multiset(ys);
    }
  }

  /** Places one definition into a sorted route. */
  method Insert(sorted: seq<Compiled>, c: Compiled) returns (r: seq<Compiled>)
    requires SortedById(sorted)
    ensures SortedById(r) && SameMembers(r, sorted + [c])
  {
    var i := 0;
    while i < |sorted| && TextBefore(sorted[i].definition.id, c.definition.id)
      invariant 0 <= i <= |sorted|
      invariant forall j :: 0 <= j < i ==> TextBefore(sorted[j].definition.id, c.definition.id)
    {
      i := i + 1;
    }
    r := sorted[..i] + [c] + sorted[i..];
    assert sorted == sorted[..i] + sorted[i..];
    forall j | 0 <= j < i
      ensures !TextBefore(c.definition.id, sorted[j].definition.id)
    {
      TextOrderIsTotal(sorted[j].definition.id, c.definition.id);
    }
    forall j | i <= j < |sorted|
      ensures !TextBefore(sorted[j].definition.id, c.definition.id)
    {
      NotBefore(sorted[j].definition.id, sorted[i].definition.id, c.definition.id);
    }
  }

  lemma {:induction false} NotBefore(a: string, b: string, c: string)
    requires !TextBefore(b, c) && (a == b || !TextBefore(a, b))
    ensures !TextBefore(a, c)
  {
    TextOrderIsTotal(b, c);
    if TextBefore(a, c) {
      if b != c {
        TextOrderIsTransitive(a, c, b);
      }
    }
  }

  /** sort.Slice by definition ID. */
  method SortById(cs: seq<Compiled>) returns (r: seq<Compiled>)
    ensures SortedById(r) && SameMembers(r, cs)
  {
    r := [];
    for i := 0 to |cs|
      invariant SortedById(r) && SameMembers(r, cs[..i])
    {
      r := Insert(r, cs[i]);
      assert cs[..i + 1] == cs[..i] + [cs[i]];
    }
    assert cs[..|cs|] == cs;
  }

  // ----- The index -----

  function KeyOf(c: Compiled): string {
    RouteKey(c.definition.series)
  }

  function RouteAt(routes: Routes, key: string): seq<Compiled> {
    if key in routes then routes[key] else []
  }

  /** A sorted route of compiled definitions for one key. */
  predicate OrderedRoute(cs: seq<Compiled>, key: string) {
    SortedById(cs) && forall i :: 0 <= i < |cs| ==> KeyOf(cs[i]) == key && Compile(cs[i].definition) == Ok(cs[i])
  }

  ghost predicate Ordered(routes: Routes) {
    forall key :: key in routes ==> routes[key] != [] && OrderedRoute(routes[key], key)
  }

  /** The compiled definitions by ID, as a flat table. */
  type Table = map<string, Compiled>

  predicate ValidTable(table: Table) {
    forall id :: id in table ==> table[id].definition.id == id && Compile(table[id].definition) == Ok(table[id])
  }

  /** A route holds exactly the table's definitions for its key. */
  predicate RouteOf(cs: seq<Compiled>, key: string, table: Table) {
    && (forall i :: 0 <= i < |cs| ==> cs[i].definition.id in table && table[cs[i].definition.id] == cs[i] && KeyOf(cs[i]) == key)
    && (forall id :: id in table && KeyOf(table[id]) == key ==> table[id] in cs)
  }

  /** The routes are the table: every definition once, in the route of its series. */
  ghost predicate Indexes(routes: Routes, table: Table) {
    && ValidTable(table) && Ordered(routes)
    && forall key :: UniqueIds(RouteAt(routes, key)) && RouteOf(RouteAt(routes, key), key, table)
  }

  function CompiledOf(d: Definition): Compiled {
    Compiled(d, Dependencies(d.rule))
  }

  function TableOf(definitions: seq<Definition>): Table {
    if definitions == [] then map[]
    else
      var last := definitions[|definitions| - 1];
      TableOf(definitions[..|definitions| - 1])[last.id := CompiledOf(last)]
  }

  /** The compiled definitions of one route, in the order of the list. */
  function CompiledFor(definitions: seq<Definition>, key: string): seq<Compiled> {
    if definitions == [] then []
    else
      var before, last := CompiledFor(definitions[..|definitions| - 1], key), definitions[|definitions| - 1];
      if RouteKey(last.series) == key then before + [CompiledOf(last)] else before
  }

  /** Every route has the list's definitions for its key, repetitions included. */
  ghost predicate RoutesOf(routes: Routes, definitions: seq<Definition>) {
    forall key :: SameMembers(RouteAt(routes, key), CompiledFor(definitions, key))
  }

  predicate DistinctDefinitions(definitions: seq<Definition>) {
    forall i, j :: 0 <= i < j < |definitions| ==> definitions[i].id != definitions[j].id
  }

  predicate AllValid(definitions: seq<Definition>) {
    forall i :: 0 <= i < |definitions| ==> Validate(definitions[i].rule)
  }

  /** The first entry with an ID, or the length. */
  function FirstWith(cs: seq<Compiled>, id: string): (i: nat)
    ensures i <= |cs| && (i < |cs| ==> cs[i].definition.id == id)
    ensures forall j :: 0 <= j < i ==> cs[j].definition.id != id
  {
    if cs == [] || cs[0].definition.id == id then 0 else 1 + FirstWith(cs[1..], id)
  }

  /** The route after an upsert: its first entry with the ID replaced in place, or the definition added in order. */
  predicate UpsertedRoute(before: seq<Compiled>, after: seq<Compiled>, c: Compiled) {
    var i := FirstWith(before, c.definition.id);
    if i < |before| then after == before[i := c] else SameMembers(after, before + [c]) && SortedById(after)
  }

  class DefinitionIndex {
    var byRoute: Routes
    var refreshedAt: Time
    ghost var table: Table

    ghost predicate Valid()
      reads this
    {
      Ordered(byRoute)
    }

    /** The routes are exactly the table. */
    ghost predicate Tabled()
      reads this
    {
      Indexes(byRoute, table)
    }

    constructor ()
      ensures Valid() && Tabled() && table == map[] && byRoute == map[]
    {
      byRoute, refreshedAt, table := map[], ZERO_TIME, map[];
    }

    /** Replaces the whole index, or nothing at all when one rule does not compile. */
    method ReplaceDefinitions(definitions: seq<Definition>, now: Time) returns (r: Result<(), string>)
      requires Valid()
      modifies this
      ensures Valid() && (r.Ok? <==> AllValid(definitions))
      ensures table == if r.Ok? then TableOf(definitions) else old(table)
      ensures r.Err? ==> byRoute == old(byRoute) && refreshedAt == old(refreshedAt)
      ensures r.Ok? ==> refreshedAt == now && RoutesOf(byRoute, definitions)
      ensures r.Ok? && DistinctDefinitions(definitions) ==> Tabled()
    {
      var built := BuildRoutes(definitions);
      match built {
        case Err(e) =>
          return Err(e);
        case Ok(routes) =>
          var sorted := SortRoutes(routes, definitions);
          byRoute, refreshedAt, table := sorted, now, TableOf(definitions);
          if DistinctDefinitions(definitions) {
            DistinctListsAreTables(sorted, definitions);
          }
          return Ok(());
      }
    }

    /** Replaces or adds one definition in the route of its series; the other routes are not looked at. */
    method UpsertDefinition(definition: Definition) returns (r: Result<(), string>)
      requires Valid()
      modifies this
      ensures Valid() && refreshedAt == old(refreshedAt)
      ensures r.Ok? <==> Validate(definition.rule)
      ensures table == if r.Ok? then old(table)[definition.id := CompiledOf(definition)] else old(table)
      ensures r.Err? ==> byRoute == old(byRoute)
      ensures r.Ok? ==> forall key :: key != RouteKey(definition.series) ==> RouteAt(byRoute, key) == RouteAt(old(byRoute), key)
      ensures r.Ok? ==> UpsertedRoute(RouteAt(old(byRoute), RouteKey(definition.series)),
                                      RouteAt(byRoute, RouteKey(definition.series)), CompiledOf(definition))
      ensures old(Tabled()) && r.Ok? ==>
                (Tabled() <==> (definition.id in old(table) ==> KeyOf(old(table)[definition.id]) == RouteKey(definition.series)))
    {
      match Compile(definition) {
        case Err(e) =>
          return Err(e);
        case Ok(compiled) =>
          ghost var before, was := byRoute, table;
          var key := RouteKey(definition.series);
          var definitions := RouteAt(byRoute, key);
          var route := UpsertRoute(definitions, compiled, key);
          byRoute := byRoute[key := route];
          table := table[definition.id := compiled];
          if Indexes(before, was) {
            UpsertKeepsTableExactly(before, was, byRoute, compiled, route);
          }
          return Ok(());
      }
    }

    method RemoveDefinition(id: string)
      requires Valid()
      modifies this
      ensures Valid() && table == old(table) - {id} && refreshedAt == old(refreshedAt)
      ensures forall key :: RouteAt(byRoute, key) == Without(RouteAt(old(byRoute), key), id)
      ensures old(Tabled()) ==> Tabled()
    {
      var routes := FilterRoutes(byRoute, id);
      RemovalKeepsOrder(byRoute, routes, id);
      if Indexes(byRoute, table) {
        RemovalFits(byRoute, table, routes, id);
      }
      byRoute := routes;
      table := table - {id};
    }

    /** Ingestion is refused once the cache is older than the allowed age; no limit means always fresh. */
    function DefinitionsFresh(maxAge: int, now: Time): (isFresh: bool)
      reads this
      ensures isFresh <==> maxAge <= 0 || (refreshedAt > 0 && now <= refreshedAt + maxAge)
    {
      maxAge <= 0 || (0 < refreshedAt && now - refreshedAt <= maxAge)
    }
  }

  // ----- Replacing everything -----

  /** Routes before sorting: each in the order of the list. */
  ghost predicate Unsorted(routes: Routes, definitions: seq<Definition>) {
    && (forall key :: key in routes ==> routes[key] != [])
    && (forall key :: RouteAt(routes, key) == CompiledFor(definitions, key))
  }

  method BuildRoutes(definitions: seq<Definition>) returns (r: Result<Routes, string>)
    ensures r.Ok? <==> AllValid(definitions)
    ensures r.Ok? ==> Unsorted(r.value, definitions)
  {
    var routes: Routes := map[];
    for i := 0 to |definitions|
      invariant AllValid(definitions[..i])
      invariant Unsorted(routes, definitions[..i])
    {
      assert definitions[..i + 1][..i] == definitions[..i];
      match Compile(definitions[i]) {
        case Err(e) =>
          return Err(e);
        case Ok(compiled) =>
          var key := RouteKey(definitions[i].series);
          routes := routes[key := RouteAt(routes, key) + [compiled]];
      }
    }
    assert definitions[..|definitions|] == definitions;
    return Ok(routes);
  }

  lemma {:induction false} CompiledForAll(definitions: seq<Definition>, key: string)
    requires AllValid(definitions)
    ensures forall c :: c in CompiledFor(definitions, key) <==>
              exists i :: 0 <= i < |definitions| && CompiledOf(definitions[i]) == c && RouteKey(definitions[i].series) == key
    ensures forall c :: c in CompiledFor(definitions, key) ==> KeyOf(c) == key && Compile(c.definition) == Ok(c)
  {
    if definitions != [] {
      var n := |definitions| - 1;
      CompiledForAll(definitions[..n], key);
      forall c
        ensures c in CompiledFor(definitions, key) <==>
                exists i :: 0 <= i < |definitions| && CompiledOf(definitions[i]) == c && RouteKey(definitions[i].series) == key
      {
        if i :| 0 <= i < n && CompiledOf(definitions[..n][i]) == c && RouteKey(definitions[..n][i].series) == key {
          assert definitions[i] == definitions[..n][i];
        }
        if i :| 0 <= i < |definitions| && CompiledOf(definitions[i]) == c && RouteKey(definitions[i].series) == key {
          assert i < n ==> definitions[..n][i] == definitions[i];
        }
      }
    }
  }

  method SortRoutes(routes: Routes, ghost definitions: seq<Definition>) returns (sorted: Routes)
    requires Unsorted(routes, definitions) && AllValid(definitions)
    ensures Ordered(sorted) && RoutesOf(sorted, definitions)
  {
    sorted := routes;
    var pending := routes.Keys;
    while pending != {}
      invariant pending <= routes.Keys == sorted.Keys
      invariant forall key :: key in pending ==> sorted[key] == routes[key]
      invariant forall key :: key in sorted && key !in pending ==>
                  SortedById(sorted[key]) && SameMembers(sorted[key], routes[key])
    {
      var key :| key in pending;
      var route := SortById(sorted[key]);
      sorted := sorted[key := route];
      pending := pending - {key};
    }
    forall key ensures SameMembers(RouteAt(sorted, key), CompiledFor(definitions, key)) {
      assert RouteAt(routes, key) == CompiledFor(definitions, key);
    }
    forall key | key in sorted ensures sorted[key] != [] && OrderedRoute(sorted[key], key) {
      assert RouteAt(routes, key) == CompiledFor(definitions, key);
      SortedIsOrdered(sorted[key], routes[key], definitions, key);
    }
  }

  lemma {:induction false} SortedIsOrdered(sorted: seq<Compiled>, cs: seq<Compiled>, definitions: seq<Definition>, key: string)
    requires SortedById(sorted) && SameMembers(sorted, cs) && cs == CompiledFor(definitions, key) && AllValid(definitions)
    ensures OrderedRoute(sorted, key)
  {
    CompiledForAll(definitions, key);
    SameMembersMeans(sorted, cs);
    forall i | 0 <= i < |sorted| ensures KeyOf(sorted[i]) == key && Compile(sorted[i].definition) == Ok(sorted[i]) {
      assert sorted[i] in sorted;
    }
  }

  lemma {:induction false} TableOfDistinct(definitions: seq<Definition>)
    requires DistinctDefinitions(definitions)
    ensures forall id :: id in TableOf(definitions) ==>
              exists i :: 0 <= i < |definitions| && definitions[i].id == id && TableOf(definitions)[id] == CompiledOf(definitions[i])
    ensures forall i :: 0 <= i < |definitions| ==>
              definitions[i].id in TableOf(definitions) && TableOf(definitions)[definitions[i].id] == CompiledOf(definitions[i])
  {
    if definitions != [] {
      var n := |definitions| - 1;
      var front := definitions[..n];
      TableOfDistinct(front);
      forall id | id in TableOf(definitions)
        ensures exists i :: 0 <= i < |definitions| && definitions[i].id == id && TableOf(definitions)[id] == CompiledOf(definitions[i])
      {
        if id == definitions[n].id {
          assert TableOf(definitions)[id] == CompiledOf(definitions[n]);
        } else {
          var i :| 0 <= i < n && front[i].id == id && TableOf(front)[id] == CompiledOf(front[i]);
          assert definitions[i] == front[i];
        }
      }
      forall i | 0 <= i < |definitions|
        ensures definitions[i].id in TableOf(definitions) && TableOf(definitions)[definitions[i].id] == CompiledOf(definitions[i])
      {
        if i < n {
          assert definitions[i] == front[i];
        }
      }
    }
  }

  lemma {:induction false} CompiledForIsUnique(definitions: seq<Definition>, key: string)
    requires DistinctDefinitions(definitions) && AllValid(definitions)
    ensures UniqueIds(CompiledFor(definitions, key))
  {
    if definitions != [] {
      var n := |definitions| - 1;
      var front := definitions[..n];
      CompiledForIsUnique(front, key);
      CompiledForAll(front, key);
      var before := CompiledFor(front, key);
      forall i | 0 <= i < |before| ensures before[i].definition.id != definitions[n].id {
        assert before[i] in before;
        var j :| 0 <= j < n && CompiledOf(front[j]) == before[i] && RouteKey(front[j].series) == key;
        assert definitions[j] == front[j];
      }
    }
  }

  lemma {:induction false} ReorderedIsUnique(cs: seq<Compiled>, ds: seq<Compiled>)
    requires UniqueIds(cs) && SameMembers(ds, cs)
    ensures UniqueIds(ds)
  {
    forall i, j | 0 <= i < j < |ds| ensures ds[i].definition.id != ds[j].definition.id {
      if ds[i].definition.id == ds[j].definition.id {
        SameMembersMeans(ds, cs);
        assert ds[i] in ds && ds[j] in ds;
        var k :| 0 <= k < |cs| && cs[k] == ds[i];
        var l :| 0 <= l < |cs| && cs[l] == ds[j];
        assert k == l;
        TwiceIn(ds, i, j);
        OnceIn(cs, k);
        assert false;
      }
    }
  }

  lemma {:induction false} TwiceIn<T>(xs: seq<T>, i: nat, j: nat)
    requires i < j < |xs| && xs[i] == xs[j]
    ensures 2 <= multiset(xs)[xs[i]]
  {
    assert xs == xs[..i] + [xs[i]] + xs[i + 1..j] + [xs[j]] + xs[j + 1..];
  }

  lemma {:induction false} OnceIn(cs: seq<Compiled>, k: nat)
    requires UniqueIds(cs) && k < |cs|
    ensures multiset(cs)[cs[k]] == 1
  {
    assert cs == cs[..k] + [cs[k]] + cs[k + 1..];
    assert cs[k] !in cs[..k] && cs[k] !in cs[k + 1..];
    assert cs[k] !in multiset(cs[..k]) && cs[k] !in multiset(cs[k + 1..]);
  }

  /** Without repeated IDs the sorted routes are the table. */
  lemma {:induction false} DistinctListsAreTables(routes: Routes, definitions: seq<Definition>)
    requires Ordered(routes) && RoutesOf(routes, definitions)
    requires DistinctDefinitions(definitions) && AllValid(definitions)
    ensures Indexes(routes, TableOf(definitions))
  {
    var table := TableOf(definitions);
    TableOfDistinct(definitions);
    forall key ensures UniqueIds(RouteAt(routes, key)) && RouteOf(RouteAt(routes, key), key, table) {
      CompiledForIsUnique(definitions, key);
      ReorderedIsUnique(CompiledFor(definitions, key), RouteAt(routes, key));
      DistinctRoute(routes, definitions, key);
    }
  }

  lemma {:induction false} DistinctRoute(routes: Routes, definitions: seq<Definition>, key: string)
    requires SameMembers(RouteAt(routes, key), CompiledFor(definitions, key))
    requires DistinctDefinitions(definitions) && AllValid(definitions)
    ensures RouteOf(RouteAt(routes, key), key, TableOf(definitions))
  {
    var cs, table := RouteAt(routes, key), TableOf(definitions);
    TableOfDistinct(definitions);
    CompiledForAll(definitions, key);
    SameMembersMeans(cs, CompiledFor(definitions, key));
    forall i | 0 <= i < |cs|
      ensures cs[i].definition.id in table && table[cs[i].definition.id] == cs[i] && KeyOf(cs[i]) == key
    {
      assert cs[i] in cs;
      var j :| 0 <= j < |definitions| && CompiledOf(definitions[j]) == cs[i] && RouteKey(definitions[j].series) == key;
    }
    forall id | id in table && KeyOf(table[id]) == key ensures table[id] in cs {
      var j :| 0 <= j < |definitions| && definitions[j].id == id && table[id] == CompiledOf(definitions[j]);
    }
  }

  /** Sorted lists with the same members end in the same one. */
  lemma {:induction false} LastIsShared(xs: seq<Compiled>, ys: seq<Compiled>)
    requires xs != [] && SortedById(xs) && SortedById(ys) && UniqueIds(xs) && SameMembers(xs, ys)
    ensures xs[|xs| - 1] == ys[|ys| - 1]
  {
    var n := |xs| - 1;
    SameMembersMeans(xs, ys);
    assert xs[n] in xs && ys[n] in ys;
    var i :| 0 <= i <= n && ys[i] == xs[n];
    var j :| 0 <= j <= n && xs[j] == ys[n];
    TextOrderIsTotal(xs[n].definition.id, ys[n].definition.id);
  }

  lemma {:induction false} FrontsShareMembers<T>(xs: seq<T>, ys: seq<T>)
    requires xs != [] && SameMembers(xs, ys) && xs[|xs| - 1] == ys[|ys| - 1]
    ensures SameMembers(xs[..|xs| - 1], ys[..|ys| - 1])
  {
    var n := |xs| - 1;
    assert xs == xs[..n] + [xs[n]] && ys == ys[..n] + [ys[n]];
    assert multiset(xs[..n]) == multiset(xs) - multiset{xs[n]};
    assert multiset(ys[..n]) == multiset(ys) - multiset{ys[n]};
  }

  /** A sorted list without repeated IDs is determined by its members. */
  lemma {:induction false} SortedIsUnique(xs: seq<Compiled>, ys: seq<Compiled>)
    requires SortedById(xs) && SortedById(ys) && UniqueIds(xs) && SameMembers(xs, ys)
    ensures xs == ys
  {
    if xs != [] {
      LastIsShared(xs, ys);
      FrontsShareMembers(xs, ys);
      SortedIsUnique(xs[..|xs| - 1], ys[..|ys| - 1]);
      SameEnds(xs, ys);
    }
  }

  lemma {:induction false} SameEnds<T>(xs: seq<T>, ys: seq<T>)
    requires xs != [] && |xs| == |ys| && xs[..|xs| - 1] == ys[..|ys| - 1] && xs[|xs| - 1] == ys[|ys| - 1]
    ensures xs == ys
  {
    assert xs == xs[..|xs| - 1] + [xs[|xs| - 1]] && ys == ys[..|ys| - 1] + [ys[|ys| - 1]];
  }

  /** The routes of a list without repeated IDs are determined by it, whichever index built them. */
  lemma {:induction false} RoutesAreUnique(xs: Routes, ys: Routes, definitions: seq<Definition>)
    requires Ordered(xs) && RoutesOf(xs, definitions) && Ordered(ys) && RoutesOf(ys, definitions)
    requires DistinctDefinitions(definitions) && AllValid(definitions)
    ensures xs == ys
  {
    forall key ensures RouteAt(xs, key) == RouteAt(ys, key) {
      SameRoute(RouteAt(xs, key), RouteAt(ys, key), definitions, key);
    }
    forall key ensures key in xs <==> key in ys
      ensures key in xs ==> xs[key] == ys[key]
    {
      assert RouteAt(xs, key) == RouteAt(ys, key);
    }
  }

  lemma {:induction false} SameRoute(xs: seq<Compiled>, ys: seq<Compiled>, definitions: seq<Definition>, key: string)
    requires SortedById(xs) && SortedById(ys) && DistinctDefinitions(definitions) && AllValid(definitions)
    requires SameMembers(xs, CompiledFor(definitions, key)) && SameMembers(ys, CompiledFor(definitions, key))
    ensures xs == ys
  {
    CompiledForIsUnique(definitions, key);
    ReorderedIsUnique(CompiledFor(definitions, key), xs);
    SortedIsUnique(xs, ys);
  }

  // ----- Changing one definition -----

  method UpsertRoute(definitions: seq<Compiled>, compiled: Compiled, ghost key: string) returns (route: seq<Compiled>)
    requires OrderedRoute(definitions, key) && KeyOf(compiled) == key && Compile(compiled.definition) == Ok(compiled)
    ensures UpsertedRoute(definitions, route, compiled) && OrderedRoute(route, key) && route != []
  {
    for index := 0 to |definitions|
      invariant index <= FirstWith(definitions, compiled.definition.id)
    {
      if definitions[index].definition.id == compiled.definition.id {
        return definitions[index := compiled];
      }
    }
    route := SortById(definitions + [compiled]);
    SameMembersMeans(route, definitions + [compiled]);
    forall i | 0 <= i < |route| ensures KeyOf(route[i]) == key && Compile(route[i].definition) == Ok(route[i]) {
      assert route[i] in route;
    }
  }

  /** An upsert leaves a table exactly when the ID is new or stays in its route. */
  lemma {:induction false} UpsertKeepsTableExactly(routes: Routes, table: Table, routes': Routes, c: Compiled, route: seq<Compiled>)
    requires Indexes(routes, table) && Compile(c.definition) == Ok(c)
    requires routes' == routes[KeyOf(c) := route] && Ordered(routes')
    requires UpsertedRoute(RouteAt(routes, KeyOf(c)), route, c)
    ensures Indexes(routes', table[c.definition.id := c])
            <==> (c.definition.id in table ==> KeyOf(table[c.definition.id]) == KeyOf(c))
  {
    var id, key, table' := c.definition.id, KeyOf(c), table[c.definition.id := c];
    if id in table && KeyOf(table[id]) != key {
      var other := KeyOf(table[id]);
      assert RouteOf(RouteAt(routes, other), other, table);
      assert table[id] in RouteAt(routes', other);
      assert !RouteOf(RouteAt(routes', other), other, table');
    } else {
      forall k ensures UniqueIds(RouteAt(routes', k)) && RouteOf(RouteAt(routes', k), k, table') {
        assert RouteOf(RouteAt(routes, k), k, table) && UniqueIds(RouteAt(routes, k));
        if k == key {
          UpsertFitsRoute(RouteAt(routes, key), table, route, c);
        } else {
          OtherRouteFits(RouteAt(routes, k), k, table, c);
        }
      }
    }
  }

  lemma {:induction false} OtherRouteFits(cs: seq<Compiled>, k: string, table: Table, c: Compiled)
    requires RouteOf(cs, k, table) && ValidTable(table) && k != KeyOf(c)
    requires c.definition.id in table ==> KeyOf(table[c.definition.id]) == KeyOf(c)
    ensures RouteOf(cs, k, table[c.definition.id := c])
  {
  }

  lemma {:induction false} UpsertFitsRoute(cs: seq<Compiled>, table: Table, route: seq<Compiled>, c: Compiled)
    requires RouteOf(cs, KeyOf(c), table) && UniqueIds(cs) && ValidTable(table) && UpsertedRoute(cs, route, c)
    requires c.definition.id in table ==> KeyOf(table[c.definition.id]) == KeyOf(c)
    ensures UniqueIds(route) && RouteOf(route, KeyOf(c), table[c.definition.id := c])
  {
    var index := FirstWith(cs, c.definition.id);
    if index < |cs| {
      ReplacementFits(cs, table, index, c);
    } else {
      AdditionFits(cs, table, route, c);
    }
  }

  lemma {:induction false} ReplacementFits(cs: seq<Compiled>, table: Table, index: nat, c: Compiled)
    requires RouteOf(cs, KeyOf(c), table) && UniqueIds(cs) && ValidTable(table)
    requires index < |cs| && cs[index].definition.id == c.definition.id
    ensures UniqueIds(cs[index := c]) && RouteOf(cs[index := c], KeyOf(c), table[c.definition.id := c])
  {
    var cs', table' := cs[index := c], table[c.definition.id := c];
    forall id | id in table' && KeyOf(table'[id]) == KeyOf(c)
      ensures table'[id] in cs'
    {
      if id == c.definition.id {
        assert cs'[index] == c;
      } else {
        var i :| 0 <= i < |cs| && cs[i] == table[id];
        assert cs'[i] == table'[id];
      }
    }
  }

  lemma {:induction false} AdditionFits(cs: seq<Compiled>, table: Table, route: seq<Compiled>, c: Compiled)
    requires RouteOf(cs, KeyOf(c), table) && UniqueIds(cs) && ValidTable(table) && SameMembers(route, cs + [c])
    requires forall i :: 0 <= i < |cs| ==> cs[i].definition.id != c.definition.id
    requires c.definition.id in table ==> KeyOf(table[c.definition.id]) == KeyOf(c)
    ensures UniqueIds(route) && RouteOf(route, KeyOf(c), table[c.definition.id := c])
  {
    var longer := cs + [c];
    ReorderedIsUnique(longer, route);
    SameMembersMeans(route, longer);
    forall i | 0 <= i < |route|
      ensures route[i].definition.id in table[c.definition.id := c] && KeyOf(route[i]) == KeyOf(c)
              && table[c.definition.id := c][route[i].definition.id] == route[i]
    {
      assert route[i] in route;
      var j :| 0 <= j < |longer| && longer[j] == route[i];
    }
    assert c in longer;
  }

  // ----- Removing one definition -----

  function Without(cs: seq<Compiled>, id: string): seq<Compiled> {
    if cs == [] then []
    else
      var before := Without(cs[..|cs| - 1], id);
      if cs[|cs| - 1].definition.id != id then before + [cs[|cs| - 1]] else before
  }

  method Filter(cs: seq<Compiled>, id: string) returns (filtered: seq<Compiled>)
    ensures filtered == Without(cs, id)
  {
    filtered := [];
    for i := 0 to |cs|
      invariant filtered == Without(cs[..i], id)
    {
      assert cs[..i + 1][..i] == cs[..i];
      if cs[i].definition.id != id {
        filtered := filtered + [cs[i]];
      }
    }
    assert cs[..|cs|] == cs;
  }

  method FilterRoutes(byRoute: Routes, id: string) returns (routes: Routes)
    requires forall key :: key in byRoute ==> byRoute[key] != []
    ensures forall key :: RouteAt(routes, key) == Without(RouteAt(byRoute, key), id)
    ensures forall key :: key in routes ==> routes[key] != []
  {
    routes := byRoute;
    var pending := byRoute.Keys;
    while pending != {}
      invariant pending <= routes.Keys <= byRoute.Keys
      invariant forall key :: key in pending ==> routes[key] == byRoute[key]
      invariant forall key :: key !in pending ==> RouteAt(routes, key) == Without(RouteAt(byRoute, key), id)
      invariant forall key :: key in routes ==> routes[key] != []
    {
      var key :| key in pending;
      var filtered := Filter(routes[key], id);
      if |filtered| == 0 {
        routes := routes - {key};
      } else {
        routes := routes[key := filtered];
      }
      pending := pending - {key};
    }
  }

  lemma {:induction false} WithoutMembers(cs: seq<Compiled>, id: string)
    ensures forall c :: c in Without(cs, id) <==> c in cs && c.definition.id != id
  {
    if cs != [] {
      var n := |cs| - 1;
      WithoutMembers(cs[..n], id);
      assert cs == cs[..n] + [cs[n]];
    }
  }

  /** Every kept entry has its place in the route. */
  lemma {:induction false} WithoutPlaces(cs: seq<Compiled>, id: string, j: nat)
    requires j < |Without(cs, id)|
    ensures exists i :: 0 <= i < |cs| && cs[i] == Without(cs, id)[j]
  {
    WithoutMembers(cs, id);
    assert Without(cs, id)[j] in Without(cs, id);
  }

  lemma {:induction false} WithoutKeepsOrder(cs: seq<Compiled>, id: string)
    ensures SortedById(cs) ==> SortedById(Without(cs, id))
    ensures UniqueIds(cs) ==> UniqueIds(Without(cs, id))
  {
    if cs != [] {
      var n := |cs| - 1;
      var front := cs[..n];
      WithoutKeepsOrder(front, id);
      forall j | 0 <= j < |Without(front, id)|
        ensures exists i :: 0 <= i < n && cs[i] == Without(front, id)[j]
      {
        WithoutPlaces(front, id, j);
        var i :| 0 <= i < n && front[i] == Without(front, id)[j];
        assert cs[i] == front[i];
      }
    }
  }

  lemma {:induction false} RemovalKeepsOrder(routes: Routes, routes': Routes, id: string)
    requires Ordered(routes)
    requires forall key :: RouteAt(routes', key) == Without(RouteAt(routes, key), id)
    requires forall key :: key in routes' ==> routes'[key] != []
    ensures Ordered(routes')
  {
    forall key | key in routes' ensures OrderedRoute(routes'[key], key) {
      assert RouteAt(routes', key) == Without(RouteAt(routes, key), id);
      WithoutKeepsOrder(RouteAt(routes, key), id);
      WithoutMembers(RouteAt(routes, key), id);
      forall i | 0 <= i < |routes'[key]| ensures routes'[key][i] in RouteAt(routes, key) {
        assert routes'[key][i] in routes'[key];
      }
    }
  }

  lemma {:induction false} RemovalFits(routes: Routes, table: Table, routes': Routes, id: string)
    requires Indexes(routes, table) && Ordered(routes')
    requires forall key :: RouteAt(routes', key) == Without(RouteAt(routes, key), id)
    ensures Indexes(routes', table - {id})
  {
    forall key ensures UniqueIds(RouteAt(routes', key)) && RouteOf(RouteAt(routes', key), key, table - {id}) {
      assert RouteOf(RouteAt(routes, key), key, table) && UniqueIds(RouteAt(routes, key));
      RemovalFitsRoute(RouteAt(routes, key), key, table, id);
    }
  }

  lemma {:induction false} RemovalFitsRoute(cs: seq<Compiled>, key: string, table: Table, id: string)
    requires ValidTable(table) && RouteOf(cs, key, table) && UniqueIds(cs)
    ensures UniqueIds(Without(cs, id)) && RouteOf(Without(cs, id), key, table - {id})
  {
    WithoutKeepsOrder(cs, id);
    WithoutMembers(cs, id);
    var kept := Without(cs, id);
    forall i | 0 <= i < |kept|
      ensures kept[i] in cs && kept[i].definition.id != id
    {
      assert kept[i] in kept;
    }
  }

  // ----- The index answers like a linear scan -----

  predicate MatchSeries(selector: Series, actual: Series) {
    && selector.symbol == actual.symbol && selector.timeframe == actual.timeframe
    && (selector.dataset == "" || selector.dataset == actual.dataset)
  }

  predicate NulFreeTable(table: Table) {
    forall id :: id in table ==> NulFree(table[id].definition.series)
  }

  /**
   Looking a series up yields each definition of the table whose selector matches it, and no other,
   exactly once.
   */
  lemma LookupIsAScan(routes: Routes, table: Table, series: Series)
    requires Indexes(routes, table) && NulFreeTable(table) && NulFree(series)
    ensures UniqueIds(DefinitionsFor(routes, series))
    ensures forall c :: c in DefinitionsFor(routes, series) <==>
              c.definition.id in table && table[c.definition.id] == c && MatchSeries(c.definition.series, series)
  {
    var any := Series("", series.symbol, series.timeframe);
    var exact, wild := Route(routes, series), Route(routes, any);
    assert exact == RouteAt(routes, RouteKey(series)) && wild == RouteAt(routes, RouteKey(any));
    assert RouteOf(exact, RouteKey(series), table) && RouteOf(wild, RouteKey(any), table);
    assert UniqueIds(exact) && UniqueIds(wild);
    if RouteKey(series) == RouteKey(any) {
      RouteKeyIsInjective(series, any);
    }
    forall c
      ensures c in exact <==> c.definition.id in table && table[c.definition.id] == c && c.definition.series == series
      ensures c in wild <==> c.definition.id in table && table[c.definition.id] == c && c.definition.series == any
    {
      if c.definition.id in table && table[c.definition.id] == c {
        if KeyOf(c) == RouteKey(series) { RouteKeyIsInjective(c.definition.series, series); }
        if KeyOf(c) == RouteKey(any) { RouteKeyIsInjective(c.definition.series, any); }
      }
    }
    var all := DefinitionsFor(routes, series);
    forall i, j | 0 <= i < j < |all| && i < |exact| && |exact| <= j
      ensures all[i].definition.id != all[j].definition.id
    {
      assert all[i] in exact && all[j] in wild;
    }
  }
}
