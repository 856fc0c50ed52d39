/** Definition routes and their lookup (internal/runtime/engine.go). */
module Routing {
  import opened Model
  import opened Keys
  import opened Rules

  type Routes = map<string, seq<Compiled>>

  function Route(routes: Routes, series: Series): seq<Compiled> {
    if RouteKey(series) in routes then routes[RouteKey(series)] else []
  }

  /** The exact route, then the route of definitions for every dataset. */
  function DefinitionsFor(routes: Routes, series: Series): seq<Compiled> {
    Route(routes, series)
    + if series.dataset != "" then Route(routes, Series("", series.symbol, series.timeframe)) else []
  }

  predicate BarFreeIds(compiled: seq<Compiled>) {
    compiled == [] || (BarFree(compiled[|compiled| - 1].definition.id) && BarFreeIds(compiled[..|compiled| - 1]))
  }

  lemma {:induction false} BarFreeAt(compiled: seq<Compiled>, i: nat)
    requires BarFreeIds(compiled) && i < |compiled|
    ensures BarFree(compiled[i].definition.id)
  {
    if i < |compiled| - 1 {
      BarFreeAt(compiled[..|compiled| - 1], i);
    }
  }

  lemma {:induction false} BarFreeConcat(xs: seq<Compiled>, ys: seq<Compiled>)
    requires BarFreeIds(xs) && BarFreeIds(ys)
    ensures BarFreeIds(xs + ys)
  {
    if ys == [] {
      assert xs + ys == xs;
    } else {
      BarFreeConcat(xs, ys[..|ys| - 1]);
      assert (xs + ys)[..|xs + ys| - 1] == xs + ys[..|ys| - 1];
    }
  }

  /** No definition ID in any route contains the separator of definition state keys. */
  predicate BarFreeRoutes(routes: Routes) {
    forall key :: key in routes ==> BarFreeIds(routes[key])
  }

  lemma RoutedIdsAreBarFree(routes: Routes, series: Series)
    requires BarFreeRoutes(routes)
    ensures BarFreeIds(DefinitionsFor(routes, series))
  {
    var wild := Route(routes, Series("", series.symbol, series.timeframe));
    BarFreeConcat(Route(routes, series), if series.dataset != "" then wild else []);
  }
}
