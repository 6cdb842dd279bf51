/**
 What `read_summaries` loads (crates/sui-archival/src/reader.rs, the verifying branch): from a manifest
 the archive has published, with summary files fetched at any later moments or not at all.
 */
module SummaryReads {
  import opened ChainTypes
  import opened Manifests
  import opened WriterInvariant
  import opened ArchiveProtocol
  import opened ArchiveReader
  import opened SyncStore

  // ---------------------------------------------------------------- delivering summaries

  /** The chain's own summaries from `a` up to `b`. */
  ghost function ChainSummaries(w: World, a: nat, b: nat): seq<CertifiedSummary> {
    seq(if a <= b then b - a else 0, i requires 0 <= i => w.chain(a + i).summary)
  }

  lemma SummariesSnoc(w: World, a: nat, b: nat)
    requires a < b
    ensures Init(ChainSummaries(w, a, b)) == ChainSummaries(w, a, b - 1)
    ensures Last(ChainSummaries(w, a, b)) == w.chain(b - 1).summary
  {
  }

  lemma ClipStep(w: World, s: nat, e: nat, a: nat, b: nat)
    requires s < e
    ensures ChainSummaries(w, Max(s, a), Min(e, b))
         == ChainSummaries(w, Max(s, a), Min(e - 1, b)) + if a <= e - 1 < b then [w.chain(e - 1).summary] else []
  {
  }

  lemma {:induction false} ClipOfChain(w: World, s: nat, e: nat, a: nat, b: nat)
    requires w.GoodChain() && s <= e
    ensures ClipSummaries(ChainSummaries(w, s, e), a, b) == ChainSummaries(w, Max(s, a), Min(e, b))
    decreases e
  {
    if s == e {
    } else {
      ClipOfChain(w, s, e - 1, a, b);
      assert w.GoodEntry(e - 1);
      SummariesSnoc(w, s, e);
      ClipStep(w, s, e, a, b);
    }
  }

  lemma ClipJoin(w: World, s: nat, m: nat, e: nat, a: nat, b: nat)
    requires s <= m <= e
    ensures ChainSummaries(w, Max(s, a), Min(m, b)) + ChainSummaries(w, Max(m, a), Min(e, b))
         == ChainSummaries(w, Max(s, a), Min(e, b))
  {
  }

  predicate SummaryFetched(got: map<Path, FileData>, pair: FilePair) {
    pair.0.FilePath() in got && got[pair.0.FilePath()].SummaryFile?
  }

  predicate SummariesFetched(got: map<Path, FileData>, pairs: seq<FilePair>) {
    forall k | 0 <= k < |pairs| :: SummaryFetched(got, pairs[k])
  }

  lemma SummariesFetchedSnoc(got: map<Path, FileData>, pairs: seq<FilePair>)
    requires pairs != []
    ensures SummariesFetched(got, pairs) <==> SummariesFetched(got, Init(pairs)) && SummaryFetched(got, Last(pairs))
  {
    if SummariesFetched(got, Init(pairs)) && SummaryFetched(got, Last(pairs)) {
      forall k | 0 <= k < |pairs| ensures SummaryFetched(got, pairs[k]) {
        if k < |pairs| - 1 { assert SummaryFetched(got, Init(pairs)[k]); }
      }
    }
    if SummariesFetched(got, pairs) {
      forall k | 0 <= k < |Init(pairs)| ensures SummaryFetched(got, Init(pairs)[k]) {
        assert SummaryFetched(got, pairs[k]);
      }
    }
  }

  /** Part of `all` from its beginning is handed over, and all of it exactly when every file came. */
  ghost predicate HandsOverSummaries(
    got: map<Path, FileData>, pairs: seq<FilePair>, a: nat, b: nat, all: seq<CertifiedSummary>)
  {
    var d := DeliverSummaries(got, pairs, a, b);
    d.0 <= all && (d.1 ==> d.0 == all) && (d.1 <==> SummariesFetched(got, pairs))
  }

  lemma FetchedSegment(w: World, got: map<Path, FileData>, seg: Segment, a: nat, b: nat)
    requires w.GoodChain() && GenuineAt(w, got, seg) && SummaryMeta(w, seg).FilePath() in got
    ensures got[SummaryMeta(w, seg).FilePath()].SummaryFile?
    ensures ClipSummaries(got[SummaryMeta(w, seg).FilePath()].summaries, a, b)
         == ChainSummaries(w, Max(seg.start, a), Min(seg.end, b))
  {
    assert w.Summaries(seg.start, seg.end) == ChainSummaries(w, seg.start, seg.end);
    ClipOfChain(w, seg.start, seg.end, a, b);
  }

  lemma HandsOverMore(w: World, got: map<Path, FileData>, pairs: seq<FilePair>, seg: Segment, s: nat, a: nat, b: nat)
    requires w.GoodChain() && GenuineAt(w, got, seg) && s <= seg.start
    requires pairs != [] && Last(pairs) == (SummaryMeta(w, seg), ContentMeta(w, seg))
    requires HandsOverSummaries(got, Init(pairs), a, b, ChainSummaries(w, Max(s, a), Min(seg.start, b)))
    ensures HandsOverSummaries(got, pairs, a, b, ChainSummaries(w, Max(s, a), Min(seg.end, b)))
  {
    SummariesFetchedSnoc(got, pairs);
    ClipJoin(w, s, seg.start, seg.end, a, b);
    if SummaryFetched(got, Last(pairs)) { FetchedSegment(w, got, seg, a, b); }
  }

  lemma {:induction false} DeliverStretch(
    w: World, got: map<Path, FileData>, segs: seq<Segment>, pairs: seq<FilePair>, a: nat, b: nat)
    requires w.GoodChain() && Stretch(w, got, segs, pairs)
    ensures HandsOverSummaries(got, pairs, a, b, ChainSummaries(w, Max(segs[0].start, a), Min(Last(segs).end, b)))
    decreases |segs|
  {
    var seg := Last(segs);
    assert StretchAt(w, got, segs, pairs, |segs| - 1);
    if |segs| > 1 {
      StretchInit(w, got, segs, pairs);
      DeliverStretch(w, got, Init(segs), Init(pairs), a, b);
    } else {
      assert Init(pairs) == [] && ChainSummaries(w, Max(seg.start, a), Min(seg.start, b)) == [];
    }
    HandsOverMore(w, got, pairs, seg, segs[0].start, a, b);
  }

  lemma HandsOverNothing(w: World, got: map<Path, FileData>, a: nat, b: nat, end: nat)
    requires b <= a
    ensures HandsOverSummaries(got, [], a, b, ChainSummaries(w, a, Min(b, end)))
  {
  }

  lemma StretchFromInside(
    w: World, got: map<Path, FileData>, segs: seq<Segment>, pairs: seq<FilePair>, a: nat, b: nat, end: nat)
    requires w.GoodChain() && Stretch(w, got, segs, pairs) && segs[0].start <= a && Last(segs).end == end
    ensures HandsOverSummaries(got, pairs, a, b, ChainSummaries(w, a, Min(end, b)))
  {
    DeliverStretch(w, got, segs, pairs, a, b);
  }

  lemma StretchDelivers(w: World, got: map<Path, FileData>, segs: seq<Segment>, a: nat, b: nat, i: nat, j: nat)
    requires w.GoodChain() && Tiles(w, segs) && Genuine(w, got, segs)
    requires i < j <= |segs| && |SegPairs(w, segs)| == |segs| && segs[i].start <= a
    ensures HandsOverSummaries(got, SegPairs(w, segs)[i..j], a, b, ChainSummaries(w, a, Min(segs[j - 1].end, b)))
  {
    SegmentsAreStretch(w, got, segs, i, j);
    StretchFromInside(w, got, segs[i..j], SegPairs(w, segs)[i..j], a, b, segs[j - 1].end);
  }

  lemma WindowDelivers(w: World, got: map<Path, FileData>, segs: seq<Segment>, a: nat, b: nat, i: nat, j: nat)
    requires w.GoodChain() && Tiles(w, segs) && Genuine(w, got, segs)
    requires i < |segs| && j <= |segs| && |SegPairs(w, segs)| == |segs|
    requires segs[i].start <= a < segs[i].end
    requires j < |segs| ==> b <= segs[j].start
    requires j > 0 ==> segs[j - 1].start < b
    ensures HandsOverSummaries(got, Within(SegPairs(w, segs), i, j), a, b, ChainSummaries(w, a, Min(b, EndOf(segs))))
  {
    if i < j {
      StretchDelivers(w, got, segs, a, b, i, j);
      WindowEnd(w, segs, b, j);
    } else {
      WindowIsEmpty(w, segs, a, b, i, j);
      HandsOverNothing(w, got, a, b, EndOf(segs));
      assert Within(SegPairs(w, segs), i, j) == [];
    }
  }

  /** The summaries handed over in a run: the chain's, from the start of the range on, in order, up to the
      first file that did not come, and all of them exactly when every summary file came. */
  lemma SummariesDuringRun(
    search: Searcher, w: World, size: nat, tr: seq<System>, i: nat, got: map<Path, FileData>, a: nat, b: nat)
    requires IsSearch(search) && w.GoodChain() && Run(w, size, tr) && i < |tr| && FetchedFrom(tr, i, got)
    requires tr[i].remoteManifest.Some? && a < tr[i].remoteManifest.value.nextCheckpointSeqNum
    ensures var m := tr[i].remoteManifest.value;
      var r := Select(search, m, a, b);
      r.Selected? && HandsOverSummaries(got, r.files, a, b, ChainSummaries(w, a, Min(b, m.nextCheckpointSeqNum)))
  {
    RunKeeps(w, size, tr, i);
    FetchedIsGenuine(w, size, tr, i, got);
    var segs := Published(tr[i]);
    var x, y := WindowOfSegments(search, w, segs, a, b);
    WriterManifestAccepted(w, segs);
    WindowDelivers(w, got, segs, a, b, x, y);
    SelectFrom(search, ManifestOf(w, segs), a, b, SegPairs(w, segs), x, y);
  }

  // ---------------------------------------------------------------- loading them

  /** The summaries a .. c - 1 have been read into a store st that held the first k checkpoints. */
  ghost predicate SummariesLoaded(w: World, com: nat -> Committee, st: Store, p: Progress, k: nat, a: nat, c: nat) {
    && a <= c && p.status.Going? && p.checkpoints == c - a
    && HoldsChain(w, com, p.store, Max(k, c)) && p.store.contents == st.contents
    && p.store.highestVerified == Topped(st.highestVerified, a, c) && p.store.highestSynced == st.highestSynced
  }

  lemma AdvanceNext(w: World, com: nat -> Committee, p: Progress, k: nat, n: nat)
    requires Certifiable(w, com) && HoldsChain(w, com, p.store, k) && n <= k && p.status.Going?
    ensures var p' := AdvanceSummary(p, w.chain(n).summary);
      && p'.status.Going? && p'.checkpoints == p.checkpoints + 1
      && HoldsChain(w, com, p'.store, Max(k, n + 1)) && p'.store.contents == p.store.contents
      && p'.store.highestVerified == Raise(p.store.highestVerified, n)
      && p'.store.highestSynced == p.store.highestSynced
  {
    assert w.GoodEntry(n);
    var st := p.store;
    if n == k {
      InsertNext(w, com, st, k);
    } else {
      assert SummaryAt(w, st, n);
    }
    AdvanceSummaryKeeps(p, w.chain(n).summary);
    var st1, st2 := GetOrInsert(st, w.chain(n).summary).store, AdvanceSummary(p, w.chain(n).summary).store;
    forall i: nat | i < Max(k, n + 1) ensures SummaryAt(w, st2, i) { assert SummaryAt(w, st1, i); }
  }

  lemma LoadedNext(w: World, com: nat -> Committee, st: Store, p: Progress, p': Progress, k: nat, a: nat, c: nat)
    requires Certifiable(w, com) && a <= k && a < c && SummariesLoaded(w, com, st, p, k, a, c - 1)
    requires p' == AdvanceSummary(p, w.chain(c - 1).summary)
    ensures SummariesLoaded(w, com, st, p', k, a, c)
  {
    AdvanceNext(w, com, p, Max(k, c - 1), c - 1);
    assert Max(Max(k, c - 1), c) == Max(k, c);
  }

  lemma LoadedMore(w: World, com: nat -> Committee, st: Store, k: nat, a: nat, c: nat)
    requires Certifiable(w, com) && a <= k && a < c
    requires SummariesLoaded(w, com, st, ProcessSummaries(st, ChainSummaries(w, a, c - 1)), k, a, c - 1)
    ensures SummariesLoaded(w, com, st, ProcessSummaries(st, ChainSummaries(w, a, c)), k, a, c)
  {
    var p, p' := ProcessSummaries(st, ChainSummaries(w, a, c - 1)), ProcessSummaries(st, ChainSummaries(w, a, c));
    assert p' == AdvanceSummary(p, w.chain(c - 1).summary) by { SummariesSnoc(w, a, c); }
    LoadedNext(w, com, st, p, p', k, a, c);
  }

  lemma {:induction false} ProcessChain(w: World, com: nat -> Committee, st: Store, k: nat, a: nat, c: nat)
    requires Certifiable(w, com) && HoldsChain(w, com, st, k) && a <= k && a <= c
    ensures SummariesLoaded(w, com, st, ProcessSummaries(st, ChainSummaries(w, a, c)), k, a, c)
    decreases c
  {
    if a == c {
      assert Max(k, a) == k && ChainSummaries(w, a, a) == [];
    } else {
      ProcessChain(w, com, st, k, a, c - 1);
      LoadedMore(w, com, st, k, a, c);
    }
  }

  lemma ChainPrefix(w: World, a: nat, b: nat, summaries: seq<CertifiedSummary>) returns (c: nat)
    requires summaries <= ChainSummaries(w, a, b)
    ensures a <= c <= Max(a, b) && summaries == ChainSummaries(w, a, c)
    ensures summaries == ChainSummaries(w, a, b) ==> c == Max(a, b)
  {
    c := a + |summaries|;
    assert ChainSummaries(w, a, c) == ChainSummaries(w, a, b)[..|summaries|];
  }

  lemma DeliveryLoads(
    search: Searcher, w: World, com: nat -> Committee, st: Store, k: nat, m: Manifest, got: map<Path, FileData>,
    a: nat, b: nat, end: nat) returns (c: nat)
    requires Certifiable(w, com) && HoldsChain(w, com, st, k) && a <= k && Select(search, m, a, b).Selected?
    requires HandsOverSummaries(got, Select(search, m, a, b).files, a, b, ChainSummaries(w, a, end))
    ensures var p := ReadSummaries(search, st, m, got, a, b);
      && a <= c <= Max(a, end) && SummariesLoaded(w, com, st, p.(status := Going), k, a, c)
      && !p.status.Panicked? && (p.status.Going? <==> SummariesFetched(got, Select(search, m, a, b).files))
      && (p.status.Going? ==> c == Max(a, end))
  {
    var d := DeliverSummaries(got, Select(search, m, a, b).files, a, b);
    c := ChainPrefix(w, a, end, d.0);
    ProcessChain(w, com, st, k, a, c);
  }

  /** End to end for summaries: a node that holds the first k checkpoints and reads the summaries of
      [a, b), a at most k, during any run.  It ends up holding the chain up to some c, its contents and
      synced watermark untouched and its verified watermark risen.  It does not panic; it goes through
      exactly when every summary file came, and then c is the end of the archived part of the range. */
  lemma ReadSummariesLoadsDuringRun(
    search: Searcher, w: World, com: nat -> Committee, size: nat, tr: seq<System>, i: nat, got: map<Path, FileData>,
    st: Store, k: nat, a: nat, b: nat) returns (c: nat)
    requires IsSearch(search) && Certifiable(w, com) && Run(w, size, tr) && i < |tr| && FetchedFrom(tr, i, got)
    requires tr[i].remoteManifest.Some? && a < tr[i].remoteManifest.value.nextCheckpointSeqNum
    requires HoldsChain(w, com, st, k) && a <= k
    ensures var m := tr[i].remoteManifest.value;
      var end := Max(a, Min(b, m.nextCheckpointSeqNum));
      var p := ReadSummaries(search, st, m, got, a, b);
      && Select(search, m, a, b).Selected?
      && a <= c <= end && SummariesLoaded(w, com, st, p.(status := Going), k, a, c)
      && !p.status.Panicked? && (p.status.Going? <==> SummariesFetched(got, Select(search, m, a, b).files))
      && (p.status.Going? ==> c == end)
  {
    var m := tr[i].remoteManifest.value;
    SummariesDuringRun(search, w, size, tr, i, got, a, b);
    c := DeliveryLoads(search, w, com, st, k, m, got, a, b, Min(b, m.nextCheckpointSeqNum));
  }
}
