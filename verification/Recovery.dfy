/** What an engine rebuilds from the store, and why a live engine never differs from it. */
module Recovery {
  import opened Wrappers
  import opened Model
  import opened Keys
  import opened SeriesMachine
  import opened PartitionCells
  import opened BatchEvaluation
  import opened BatchCommit

  function HomeSeries<V>(layout: Layout, series: map<string, V>, i: nat): map<string, V> {
    map k | k in series && layout.Home(k) == i :: series[k]
  }

  function HomeDefinitions(layout: Layout, definitions: map<string, DefinitionState>, i: nat): map<string, DefinitionState> {
    map key | key in definitions && layout.Home(DefinitionSeriesKey(key)) == i :: definitions[key]
  }

  /** The cells of one partition as they are rebuilt from the store. */
  function Loaded(layout: Layout, stored: Cells, i: nat): Cells {
    Cells(HomeSeries(layout, ClonedViews(stored.series), i), HomeDefinitions(layout, stored.definitions, i))
  }

  function Reloaded(stored: Cell): Cell {
    Cell(if stored.state.Some? then Some(ClonedSeries(AsWritten, stored.state.value)) else None, stored.definitions)
  }

  lemma LoadedAt(layout: Layout, stored: Cells, i: nat, k: string)
    ensures Loaded(layout, stored, i).At(k) == if layout.Home(k) == i then Reloaded(stored.At(k)) else EMPTY_CELL
  {
  }

  /** Cells that agree on every series are equal. */
  lemma CellsAreExtensional(a: Cells, b: Cells)
    requires forall k {:trigger a.At(k)} :: a.At(k) == b.At(k)
    ensures a == b
  {
    forall k ensures k in a.series <==> k in b.series
      ensures k in a.series ==> a.series[k] == b.series[k]
    {
      assert a.At(k) == b.At(k);
    }
    forall key ensures key in a.definitions <==> key in b.definitions
      ensures key in a.definitions ==> a.definitions[key] == b.definitions[key]
    {
      var k := DefinitionSeriesKey(key);
      assert a.At(k) == b.At(k);
      assert key in DefinitionsOf(a.definitions, k) <==> key in DefinitionsOf(b.definitions, k);
    }
    assert a.series == b.series && a.definitions == b.definitions;
  }

  // ----- One batch of one partition -----

  predicate SlashFreeInputs(observations: seq<Observation>) {
    forall i :: 0 <= i < |observations| ==> SlashFree(observations[i].series)
  }

  /** A routed batch has no inputs for series whose key is looked up in another partition. */
  lemma {:induction false} NoStrayInputs(layout: Layout, i: nat, observations: seq<Observation>, k: string)
    requires Routed(layout, i, observations) && SlashFreeInputs(observations)
    requires layout.Home(k) != i
    ensures EventsOf(k, observations) == []
  {
    if observations != [] {
      var last := observations[|observations| - 1];
      NoStrayInputs(layout, i, observations[..|observations| - 1], k);
      CheckpointPartition(layout.hash, layout.partitions, last.series);
    }
  }

  /** What a committed batch changes in the store stays within the partition that evaluated it. */
  lemma OtherPartitionsKeepTheirCheckpoints(layout: Layout, i: nat, p: Policy, cells: Cells, stored: Cells, saved: Cells,
                                            observations: seq<Observation>, k: string)
    requires Routed(layout, i, observations) && SlashFreeInputs(observations)
    requires EveryCellIsSaved(p, cells, stored, saved, observations)
    requires layout.Home(k) != i
    ensures saved.At(k) == stored.At(k)
  {
    NoStrayInputs(layout, i, observations, k);
    assert saved.At(k) == Checkpointed(stored.At(k), Reached(p, cells, k, observations).work);
  }

  /** What the store rebuilds after a batch is what the batch makes of what it rebuilt before. */
  lemma RebuiltAdvances(layout: Layout, i: nat, p: Policy, cells: Cells, stored: Cells, saved: Cells, observations: seq<Observation>)
    requires p.clone == AsWritten
    requires Routed(layout, i, observations) && SlashFreeInputs(observations)
    requires cells == Loaded(layout, stored, i) && EveryCellIsSaved(p, cells, stored, saved, observations)
    ensures EveryCellAdvances(p, cells, Loaded(layout, saved, i), observations)
  {
    forall k ensures Loaded(layout, saved, i).At(k) == AfterBatch(p, cells, k, observations) {
      LoadedAt(layout, stored, i, k);
      LoadedAt(layout, saved, i, k);
      AfterBatchCommits(p, cells, k, observations);
      assert saved.At(k) == Checkpointed(stored.At(k), Reached(p, cells, k, observations).work);
      if layout.Home(k) != i {
        NoStrayInputs(layout, i, observations, k);
      }
    }
  }

  /** A live partition equals its reconstruction, and stays so over a batch of its own. */
  lemma LiveEqualsReloaded(layout: Layout, i: nat, p: Policy, cells: Cells, stored: Cells, after: Cells, saved: Cells,
                           observations: seq<Observation>)
    requires p.clone == AsWritten
    requires Routed(layout, i, observations) && SlashFreeInputs(observations)
    requires cells == Loaded(layout, stored, i)
    requires EveryCellAdvances(p, cells, after, observations) && EveryCellIsSaved(p, cells, stored, saved, observations)
    ensures after == Loaded(layout, saved, i)
  {
    var loaded := Loaded(layout, saved, i);
    RebuiltAdvances(layout, i, p, cells, stored, saved, observations);
    forall k ensures after.At(k) == loaded.At(k) {
      assert after.At(k) == AfterBatch(p, cells, k, observations);
      assert loaded.At(k) == AfterBatch(p, cells, k, observations);
    }
    CellsAreExtensional(after, loaded);
  }

  /** ... and over a batch of any other partition, whichever worker evaluates it. */
  lemma OthersBatchesAreNotSeen(layout: Layout, i: nat, j: nat, p: Policy, cells: Cells, stored: Cells, saved: Cells,
                                observations: seq<Observation>)
    requires i != j && Routed(layout, j, observations) && SlashFreeInputs(observations)
    requires EveryCellIsSaved(p, cells, stored, saved, observations)
    ensures Loaded(layout, saved, i) == Loaded(layout, stored, i)
  {
    var a, b := Loaded(layout, saved, i), Loaded(layout, stored, i);
    forall k ensures a.At(k) == b.At(k) {
      LoadedAt(layout, stored, i, k);
      LoadedAt(layout, saved, i, k);
      if layout.Home(k) == i {
        OtherPartitionsKeepTheirCheckpoints(layout, j, p, cells, stored, saved, observations, k);
      }
    }
    CellsAreExtensional(a, b);
  }
}
