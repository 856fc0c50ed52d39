/** The text keys of checkpoints and routes, and when they can be taken apart again. */
module Keys {
  import opened Wrappers
  import opened Model

  /** Index of the first c in s, or |s|. */
  function IndexOf(s: string, c: char): (i: nat)
    ensures i <= |s| && (i < |s| ==> s[i] == c)
    ensures forall j :: 0 <= j < i ==> s[j] != c
  {
    if s == "" || s[0] == c then 0 else 1 + IndexOf(s[1..], c)
  }

  lemma IndexOfJoined(a: string, c: char, b: string)
    ensures IndexOf(a + [c] + b, c) == |a| <==> c !in a
  {
    var s := a + [c] + b;
    assert s[|a|] == c && IndexOf(s, c) <= |a|;
    assert forall j :: 0 <= j < |a| ==> s[j] == a[j];
    assert forall j :: 0 <= j < |a| ==> a[j] in a;
  }

  /** The two texts around the first c. */
  function Cut(s: string, c: char): Option<(string, string)> {
    var i := IndexOf(s, c);
    if i < |s| then Some((s[..i], s[i + 1..])) else None
  }

  lemma CutJoined(a: string, c: char, b: string)
    ensures Cut(a + [c] + b, c) == Some((a, b)) <==> c !in a
  {
    var s := a + [c] + b;
    IndexOfJoined(a, c, b);
    assert s[..|a|] == a && s[|a| + 1..] == b;
  }

  function Join(c: char, parts: (string, string, string)): string {
    parts.0 + [c] + (parts.1 + [c] + parts.2)
  }

  /** Splits into at most three parts; the last keeps its separators. */
  function Split(c: char, s: string): Option<(string, string, string)> {
    match Cut(s, c)
    case None => None
    case Some((a, rest)) =>
      match Cut(rest, c)
      case None => None
      case Some((b, last)) => Some((a, b, last))
  }

  lemma SplitJoined(c: char, parts: (string, string, string))
    ensures Split(c, Join(c, parts)) == Some(parts) <==> c !in parts.0 && c !in parts.1
  {
    CutJoined(parts.0, c, parts.1 + [c] + parts.2);
    CutJoined(parts.1, c, parts.2);
  }

  // ----- Series keys and partitions -----

  const SLASH: char := '/'
  const BAR: char := '|'
  const NUL: char := '\0'

  function Parts(s: Series): (string, string, string) {
    (s.dataset, s.symbol, s.timeframe)
  }

  function OfParts(parts: (string, string, string)): Series {
    Series(parts.0, parts.1, parts.2)
  }

  predicate SlashFree(s: Series) {
    SLASH !in s.dataset && SLASH !in s.symbol
  }

  function SplitKey(key: string): Option<Series> {
    match Split(SLASH, key)
    case None => None
    case Some(parts) => Some(OfParts(parts))
  }

  /** A series can be read back from its key exactly when dataset and symbol have no slash. */
  lemma SeriesKeyRoundTrip(s: Series)
    ensures SplitKey(s.Key()) == Some(s) <==> SlashFree(s)
  {
    assert s.Key() == Join(SLASH, Parts(s));
    SplitJoined(SLASH, Parts(s));
  }

  lemma SeriesKeyIsInjective(s: Series, t: Series)
    requires SlashFree(s) && SlashFree(t) && s.Key() == t.Key()
    ensures s == t
  {
    SeriesKeyRoundTrip(s);
    SeriesKeyRoundTrip(t);
  }

  function RouteKey(s: Series): string {
    s.dataset + [NUL] + s.symbol + [NUL] + s.timeframe
  }

  predicate NulFree(s: Series) {
    NUL !in s.dataset && NUL !in s.symbol
  }

  lemma RouteKeyIsInjective(s: Series, t: Series)
    requires NulFree(s) && NulFree(t) && RouteKey(s) == RouteKey(t)
    ensures s == t
  {
    assert RouteKey(s) == Join(NUL, Parts(s));
    assert RouteKey(t) == Join(NUL, Parts(t));
    SplitJoined(NUL, Parts(s));
    SplitJoined(NUL, Parts(t));
  }

  type Hash = string -> nat

  type Count = n: int | 0 < n witness 1

  function PartitionOf(hash: Hash, partitions: Count, s: Series): nat {
    hash(RouteKey(s)) % partitions
  }

  function PartitionForKey(hash: Hash, partitions: Count, key: string): nat {
    match SplitKey(key)
    case Some(s) => PartitionOf(hash, partitions, s)
    case None => hash(key) % partitions
  }

  /** A key without two separators is no series key and is spread by itself. */
  lemma OtherKeysAreSpread(hash: Hash, partitions: Count, key: string)
    requires forall i, j :: 0 <= i < j < |key| ==> key[i] != SLASH || key[j] != SLASH
    ensures PartitionForKey(hash, partitions, key) == hash(key) % partitions
  {
    var i := IndexOf(key, SLASH);
    if i < |key| {
      var rest := key[i + 1..];
      forall j | 0 <= j < |rest| ensures rest[j] != SLASH {
        assert rest[j] == key[i + 1 + j];
      }
    }
  }

  /** The partition layout all workers of one deployment share. */
  datatype Layout = Layout(hash: Hash, partitions: Count) {
    function Of(s: Series): nat {
      PartitionOf(hash, partitions, s)
    }

    /** Where the checkpoint of a series key is looked up. */
    function Home(seriesKey: string): nat {
      PartitionForKey(hash, partitions, seriesKey)
    }
  }

  lemma CheckpointPartition(hash: Hash, partitions: Count, s: Series)
    requires SlashFree(s)
    ensures PartitionForKey(hash, partitions, s.Key()) == PartitionOf(hash, partitions, s)
  {
    SeriesKeyRoundTrip(s);
  }

  /** The first two parts a key is split into lie before its second own separator. */
  lemma KeyHasThreeParts(s: Series)
    ensures SplitKey(s.Key()).Some?
    ensures NulFree(s) ==> NulFree(SplitKey(s.Key()).value)
  {
    var key := s.Key();
    assert key[|s.dataset|] == SLASH;
    var i := IndexOf(key, SLASH);
    assert i <= |s.dataset|;
    var rest := key[i + 1..];
    var second := |s.dataset| + 1 + |s.symbol|;
    assert key[second] == SLASH && rest[second - i - 1] == SLASH;
    var j := IndexOf(rest, SLASH);
    assert j <= second - i - 1;
    if NulFree(s) {
      forall k | 0 <= k < second
        ensures key[k] != NUL
      {
        assert key[k] == if k < |s.dataset| then s.dataset[k] else if k == |s.dataset| then SLASH else s.symbol[k - |s.dataset| - 1];
      }
    }
  }

  /**
   A checkpoint is looked up in the partition that wrote it under every hash exactly when the
   dataset and the symbol have no slash.
   */
  lemma CheckpointsStayPutExactlyWhenSlashFree(s: Series, partitions: Count)
    requires NulFree(s) && 2 <= partitions
    ensures SlashFree(s) <==>
            forall hash: Hash :: PartitionForKey(hash, partitions, s.Key()) == PartitionOf(hash, partitions, s)
  {
    if SlashFree(s) {
      forall hash: Hash ensures PartitionForKey(hash, partitions, s.Key()) == PartitionOf(hash, partitions, s) {
        CheckpointPartition(hash, partitions, s);
      }
    } else {
      SeriesKeyRoundTrip(s);
      KeyHasThreeParts(s);
      var t := SplitKey(s.Key()).value;
      var home := RouteKey(s);
      var hash: Hash := text => if text == home then 1 else 0;
      if RouteKey(t) == home {
        RouteKeyIsInjective(s, t);
      }
      assert PartitionForKey(hash, partitions, s.Key()) != PartitionOf(hash, partitions, s);
    }
  }

  // ----- Definition state keys -----

  function DefinitionStateKey(definitionId: string, seriesKey: string): string {
    definitionId + [BAR] + seriesKey
  }

  function DefinitionSeriesKey(key: string): string {
    match Cut(key, BAR)
    case Some((_, seriesKey)) => seriesKey
    case None => key
  }

  predicate BarFree(definitionId: string) {
    BAR !in definitionId
  }

  /** The series of a definition state is recovered exactly when the definition ID has no bar. */
  lemma DefinitionKeyRoundTrip(definitionId: string, seriesKey: string)
    ensures DefinitionSeriesKey(DefinitionStateKey(definitionId, seriesKey)) == seriesKey <==> BarFree(definitionId)
  {
    var key := DefinitionStateKey(definitionId, seriesKey);
    CutJoined(definitionId, BAR, seriesKey);
    IndexOfJoined(definitionId, BAR, seriesKey);
    var i := IndexOf(key, BAR);
    assert key[|definitionId|] == BAR && i <= |definitionId|;
    assert |DefinitionSeriesKey(key)| == |key| - i - 1;
  }

  lemma DefinitionKeyIsInjective(a: string, b: string, seriesKey: string)
    requires DefinitionStateKey(a, seriesKey) == DefinitionStateKey(b, seriesKey)
    ensures a == b
  {
    var key := DefinitionStateKey(a, seriesKey);
    assert |a| == |b|;
    assert a == key[..|a|] && b == key[..|b|];
  }
}
