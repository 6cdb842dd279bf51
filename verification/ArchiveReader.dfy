/**
 Reading the archive (crates/sui-archival/src/reader.rs): checking a manifest, locating the
 files of a checkpoint range by binary search, and handing over the summary/contents pairs.
 */
module ArchiveReader {
  import opened ChainTypes
  import opened Manifests
  import opened WriterInvariant
  import opened ArchiveProtocol

  function Min(a: int, b: int): int { if a <= b then a else b }
  function Max(a: int, b: int): int { if a <= b then b else a }

  // ---------------------------------------------------------------- filter and sort

  function OfType(files: seq<FileMetadata>, t: FileType): seq<FileMetadata> {
    if files == [] then []
    else OfType(Init(files), t) + (if Last(files).fileType == t then [Last(files)] else [])
  }

  ghost predicate SortedByStart(files: seq<FileMetadata>) {
    forall i, j | 0 <= i < j < |files| :: files[i].start <= files[j].start
  }

  function InsertByStart(f: FileMetadata, files: seq<FileMetadata>): (r: seq<FileMetadata>)
    ensures multiset(r) == multiset(files) + multiset{f}
  {
    if files == [] || f.start <= files[0].start then [f] + files
    else
      assert files == [files[0]] + files[1..];
      [files[0]] + InsertByStart(f, files[1..])
  }

  lemma {:induction false} InsertKeepsSorted(f: FileMetadata, files: seq<FileMetadata>)
    requires SortedByStart(files)
    ensures SortedByStart(InsertByStart(f, files))
  {
    if files != [] && files[0].start < f.start {
      var rest := InsertByStart(f, files[1..]);
      InsertKeepsSorted(f, files[1..]);
      forall x | x in rest ensures files[0].start <= x.start {
        assert x in multiset(rest);
        assert x == f || x in files[1..];
      }
      FirstOfSorted(files[0], rest);
    }
  }

  lemma FirstOfSorted(f: FileMetadata, rest: seq<FileMetadata>)
    requires SortedByStart(rest) && forall x | x in rest :: f.start <= x.start
    ensures SortedByStart([f] + rest)
  {
    var files := [f] + rest;
    forall i, j | 0 <= i < j < |files| ensures files[i].start <= files[j].start {
      assert files[j] == rest[j - 1] && rest[j - 1] in rest;
    }
  }

  /** The stable sort by range start. */
  function SortByStart(files: seq<FileMetadata>): (r: seq<FileMetadata>)
    ensures multiset(r) == multiset(files)
    ensures SortedByStart(r)
  {
    if files == [] then []
    else
      assert files == [files[0]] + files[1..];
      InsertKeepsSorted(files[0], SortByStart(files[1..]));
      InsertByStart(files[0], SortByStart(files[1..]))
  }

  lemma {:induction false} SortOfSorted(files: seq<FileMetadata>)
    requires SortedByStart(files)
    ensures SortByStart(files) == files
  {
    if files == [] {
    } else {
      SortOfSorted(files[1..]);
    }
  }

  // ---------------------------------------------------------------- verify_manifest

  type FilePair = (FileMetadata, FileMetadata)

  datatype Verdict = Accepted(pairs: seq<FilePair>) | EmptyArchive | AssertFailed

  predicate Continues(files: seq<FileMetadata>, i: nat)
    requires 1 <= i < |files|
  {
    files[i].start == files[i - 1].end
  }

  /** Each range starts where the previous one ended. */
  predicate Contiguous(files: seq<FileMetadata>) { forall i | 1 <= i < |files| :: Continues(files, i) }

  predicate SameRanges(a: seq<FileMetadata>, b: seq<FileMetadata>)
    requires |a| == |b|
  {
    forall i | 0 <= i < |a| :: a[i].start == b[i].start && a[i].end == b[i].end
  }

  /** Pairs two sorted file lists, or panics where the code asserts. */
  function PairUp(summaries: seq<FileMetadata>, contents: seq<FileMetadata>): Verdict {
    if |summaries| != |contents| || !Contiguous(summaries) || !Contiguous(contents) then AssertFailed
    else if !SameRanges(summaries, contents) then AssertFailed
    else if summaries == [] || summaries[0].start != 0 then AssertFailed
    else Accepted(seq(|summaries|, i requires 0 <= i < |summaries| => (summaries[i], contents[i])))
  }

  function VerifyManifest(m: Manifest): Verdict {
    if m.fileMetadata == [] then EmptyArchive
    else PairUp(SortByStart(OfType(m.fileMetadata, CheckpointSummaryFile)),
                SortByStart(OfType(m.fileMetadata, CheckpointContent)))
  }

  ghost predicate Covered(pairs: seq<FilePair>, c: nat) {
    exists k | 0 <= k < |pairs| :: pairs[k].0.start <= c < pairs[k].0.end
  }

  predicate PairContinues(pairs: seq<FilePair>, k: nat)
    requires 1 <= k < |pairs|
  {
    pairs[k].0.start == pairs[k - 1].0.end
  }

  /** What acceptance says about the pairs, and no more. */
  ghost predicate Chained(pairs: seq<FilePair>) {
    && pairs != [] && pairs[0].0.start == 0
    && (forall k | 1 <= k < |pairs| :: PairContinues(pairs, k))
    && (forall i, j | 0 <= i < j < |pairs| :: pairs[i].0.start <= pairs[j].0.start)
  }

  lemma PairUpChains(summaries: seq<FileMetadata>, contents: seq<FileMetadata>)
    requires SortedByStart(summaries) && PairUp(summaries, contents).Accepted?
    ensures Chained(PairUp(summaries, contents).pairs)
  {
    var pairs := PairUp(summaries, contents).pairs;
    forall k | 1 <= k < |pairs| ensures PairContinues(pairs, k) { assert Continues(summaries, k); }
  }

  lemma AcceptedAreChained(m: Manifest)
    requires VerifyManifest(m).Accepted?
    ensures Chained(VerifyManifest(m).pairs)
  {
    PairUpChains(SortByStart(OfType(m.fileMetadata, CheckpointSummaryFile)),
                 SortByStart(OfType(m.fileMetadata, CheckpointContent)));
  }

  lemma {:induction false} ChainedCoverUpTo(pairs: seq<FilePair>, c: nat, k: nat)
    requires Chained(pairs) && k < |pairs| && c < pairs[k].0.start
    ensures Covered(pairs, c)
  {
    assert PairContinues(pairs, k);
    if c < pairs[k - 1].0.start { ChainedCoverUpTo(pairs, c, k - 1); }
  }

  lemma ChainedCovers(pairs: seq<FilePair>, c: nat)
    requires Chained(pairs)
    ensures Covered(pairs, c) <==> c < Max(Last(pairs).0.start, Last(pairs).0.end)
  {
    var n := |pairs| - 1;
    if c < pairs[n].0.start { ChainedCoverUpTo(pairs, c, n); }
    if Covered(pairs, c) {
      var k :| 0 <= k < |pairs| && pairs[k].0.start <= c < pairs[k].0.end;
      if k < n { assert PairContinues(pairs, k + 1); }
    }
  }

  ghost function Firsts(pairs: seq<FilePair>): seq<FileMetadata> {
    seq(|pairs|, i requires 0 <= i < |pairs| => pairs[i].0)
  }

  ghost function Seconds(pairs: seq<FilePair>): seq<FileMetadata> {
    seq(|pairs|, i requires 0 <= i < |pairs| => pairs[i].1)
  }

  lemma PairUpPairs(pairs: seq<FilePair>)
    requires Contiguous(Firsts(pairs)) && Contiguous(Seconds(pairs)) && SameRanges(Firsts(pairs), Seconds(pairs))
    requires pairs != [] && pairs[0].0.start == 0
    ensures PairUp(Firsts(pairs), Seconds(pairs)) == Accepted(pairs)
  {
    assert PairUp(Firsts(pairs), Seconds(pairs)).pairs == pairs;
  }

  // ---------------------------------------------------------------- what the check accepts

  lemma {:induction false} OfTypeCounts(files: seq<FileMetadata>, t: FileType, f: FileMetadata)
    ensures multiset(OfType(files, t))[f] == if f.fileType == t then multiset(files)[f] else 0
  {
    if files == [] {
    } else {
      OfTypeCounts(Init(files), t, f);
      assert files == Init(files) + [Last(files)];
    }
  }

  /** `part` lists exactly the entries of one type, by ascending start, each starting where the previous one
      ended. */
  ghost predicate ListsInOrder(files: seq<FileMetadata>, t: FileType, part: seq<FileMetadata>) {
    && (forall f: FileMetadata :: multiset(part)[f] == if f.fileType == t then multiset(files)[f] else 0)
    && SortedByStart(part) && Contiguous(part)
  }

  /** Summary entries and content entries paired up over equal ranges that follow each other from 0. */
  ghost predicate Proper(m: Manifest, pairs: seq<FilePair>) {
    && ListsInOrder(m.fileMetadata, CheckpointSummaryFile, Firsts(pairs))
    && ListsInOrder(m.fileMetadata, CheckpointContent, Seconds(pairs))
    && SameRanges(Firsts(pairs), Seconds(pairs)) && pairs != [] && pairs[0].0.start == 0
  }

  lemma SortLists(files: seq<FileMetadata>, t: FileType)
    requires Contiguous(SortByStart(OfType(files, t)))
    ensures ListsInOrder(files, t, SortByStart(OfType(files, t)))
  {
    forall f: FileMetadata
      ensures multiset(SortByStart(OfType(files, t)))[f] == if f.fileType == t then multiset(files)[f] else 0
    {
      OfTypeCounts(files, t, f);
    }
  }

  lemma PairUpParts(summaries: seq<FileMetadata>, contents: seq<FileMetadata>)
    requires PairUp(summaries, contents).Accepted?
    ensures var pairs := PairUp(summaries, contents).pairs;
      && Firsts(pairs) == summaries && Seconds(pairs) == contents
      && Contiguous(summaries) && Contiguous(contents)
      && SameRanges(Firsts(pairs), Seconds(pairs)) && pairs != [] && pairs[0].0.start == 0
  {
  }

  /** What the check accepts is properly paired: all its assertions hold of the result. */
  lemma AcceptedIsProper(m: Manifest)
    requires VerifyManifest(m).Accepted?
    ensures Proper(m, VerifyManifest(m).pairs)
  {
    PairUpParts(SortByStart(OfType(m.fileMetadata, CheckpointSummaryFile)),
                SortByStart(OfType(m.fileMetadata, CheckpointContent)));
    SortLists(m.fileMetadata, CheckpointSummaryFile);
    SortLists(m.fileMetadata, CheckpointContent);
  }

  predicate StrictByStart(files: seq<FileMetadata>) {
    forall i, j | 0 <= i < j < |files| :: files[i].start < files[j].start
  }

  lemma SameHead(a: seq<FileMetadata>, b: seq<FileMetadata>)
    requires SortedByStart(a) && StrictByStart(b) && multiset(a) == multiset(b) && a != [] && b != []
    ensures a[0] == b[0]
  {
    assert a[0] in multiset(b) && b[0] in multiset(a);
    var i :| 0 <= i < |b| && b[i] == a[0];
    var j :| 0 <= j < |a| && a[j] == b[0];
  }

  /** A sorted list with the entries of a strictly ascending one is that list. */
  lemma {:induction false} SortedIsUnique(a: seq<FileMetadata>, b: seq<FileMetadata>)
    requires SortedByStart(a) && StrictByStart(b) && multiset(a) == multiset(b)
    ensures a == b
    decreases |b|
  {
    assert |multiset(a)| == |a| && |multiset(b)| == |b|;
    if b == [] {
    } else {
      SameHead(a, b);
      assert a == [a[0]] + a[1..] && b == [b[0]] + b[1..];
      assert multiset(a[1..]) == multiset(a) - multiset{a[0]};
      SortedIsUnique(a[1..], b[1..]);
    }
  }

  lemma SortIs(files: seq<FileMetadata>, t: FileType, part: seq<FileMetadata>)
    requires ListsInOrder(files, t, part) && StrictByStart(part)
    ensures SortByStart(OfType(files, t)) == part
  {
    forall f: FileMetadata ensures multiset(OfType(files, t))[f] == multiset(part)[f] { OfTypeCounts(files, t, f); }
    assert multiset(SortByStart(OfType(files, t))) == multiset(part);
    SortedIsUnique(SortByStart(OfType(files, t)), part);
  }

  /** And everything that can be properly paired, with no start repeated, is accepted as just that. */
  lemma ProperIsAccepted(m: Manifest, pairs: seq<FilePair>)
    requires Proper(m, pairs) && StrictByStart(Firsts(pairs))
    ensures VerifyManifest(m) == Accepted(pairs)
  {
    assert StrictByStart(Seconds(pairs));
    SortIs(m.fileMetadata, CheckpointSummaryFile, Firsts(pairs));
    SortIs(m.fileMetadata, CheckpointContent, Seconds(pairs));
    ListedIsThere(m.fileMetadata, CheckpointSummaryFile, Firsts(pairs));
    PairUpPairs(pairs);
  }

  lemma ListedIsThere(files: seq<FileMetadata>, t: FileType, part: seq<FileMetadata>)
    requires ListsInOrder(files, t, part) && part != []
    ensures files != []
  {
    assert part[0] in multiset(part);
    assert multiset(files)[part[0]] > 0;
  }

  ghost predicate CoversUpTo(pairs: seq<FilePair>, next: nat) { forall c: nat | c < next :: Covered(pairs, c) }

  predicate Reaches(files: seq<FileMetadata>, next: nat) { exists f | f in files :: f.end >= next }

  /** Contiguous pairs cover everything below `next` exactly when one of them ends there or later. */
  lemma ChainedCoversUpTo(pairs: seq<FilePair>, next: nat)
    requires Chained(pairs)
    ensures CoversUpTo(pairs, next) <==> exists k | 0 <= k < |pairs| :: pairs[k].0.end >= next
  {
    var n := |pairs| - 1;
    forall c: nat | c < next ensures Covered(pairs, c) <==> c < Max(pairs[n].0.start, pairs[n].0.end) {
      ChainedCovers(pairs, c);
    }
    if n > 0 { assert PairContinues(pairs, n); }
    if CoversUpTo(pairs, next) {
      if next > 0 { assert Covered(pairs, next - 1); }
      var k := if n > 0 && pairs[n].0.end < next then n - 1 else n;
      assert pairs[k].0.end >= next;
    }
    if k :| 0 <= k < |pairs| && pairs[k].0.end >= next {
      if k < n { assert PairContinues(pairs, k + 1); }
    }
  }

  lemma PairUpCoversUpTo(summaries: seq<FileMetadata>, contents: seq<FileMetadata>, next: nat)
    requires SortedByStart(summaries) && PairUp(summaries, contents).Accepted?
    ensures CoversUpTo(PairUp(summaries, contents).pairs, next) <==> Reaches(summaries, next)
  {
    var pairs := PairUp(summaries, contents).pairs;
    PairUpChains(summaries, contents);
    ChainedCoversUpTo(pairs, next);
    if Reaches(summaries, next) {
      var k :| 0 <= k < |summaries| && summaries[k].end >= next;
      assert pairs[k].0.end >= next;
    }
    if k :| 0 <= k < |pairs| && pairs[k].0.end >= next {
      assert summaries[k] in summaries;
    }
  }

  lemma SortKeepsReach(files: seq<FileMetadata>, next: nat)
    ensures Reaches(SortByStart(files), next) <==> Reaches(files, next)
  {
    var sorted := SortByStart(files);
    assert forall f :: f in sorted <==> f in multiset(sorted);
    assert forall f :: f in files <==> f in multiset(files);
  }

  predicate SummaryReaches(files: seq<FileMetadata>, next: nat) {
    exists f | f in files :: f.fileType == CheckpointSummaryFile && f.end >= next
  }

  lemma {:induction false} OfTypeKeepsReach(files: seq<FileMetadata>, next: nat)
    ensures Reaches(OfType(files, CheckpointSummaryFile), next) <==> SummaryReaches(files, next)
  {
    if files == [] {
    } else {
      OfTypeKeepsReach(Init(files), next);
      assert forall f :: f in files <==> f in Init(files) || f == Last(files);
    }
  }

  /** An accepted manifest has files for every checkpoint below `next` exactly when one of its summary
      entries ends there or later. */
  lemma AcceptedCoversIff(m: Manifest, next: nat)
    requires VerifyManifest(m).Accepted?
    ensures CoversUpTo(VerifyManifest(m).pairs, next) <==> SummaryReaches(m.fileMetadata, next)
  {
    var summaries := OfType(m.fileMetadata, CheckpointSummaryFile);
    PairUpCoversUpTo(SortByStart(summaries), SortByStart(OfType(m.fileMetadata, CheckpointContent)), next);
    SortKeepsReach(summaries, next);
    OfTypeKeepsReach(m.fileMetadata, next);
  }

  /** The check promises files for every checkpoint up to the latest one.  An accepted manifest keeps that
      promise exactly when one of its summary entries reaches its own next sequence number. */
  lemma AcceptedCoversLatestIff(m: Manifest)
    requires VerifyManifest(m).Accepted?
    ensures (forall c: nat | c < m.nextCheckpointSeqNum :: Covered(VerifyManifest(m).pairs, c))
        <==> exists f | f in m.fileMetadata :: f.fileType == CheckpointSummaryFile && f.end >= m.nextCheckpointSeqNum
  {
    AcceptedCoversIff(m, m.nextCheckpointSeqNum);
  }

  lemma OfTypeOfTwo(s: FileMetadata, c: FileMetadata)
    requires s.fileType == CheckpointSummaryFile && c.fileType == CheckpointContent
    ensures OfType([c, s], CheckpointSummaryFile) == [s] && OfType([c, s], CheckpointContent) == [c]
  {
    assert Init([c, s]) == [c] && Init([c]) == [];
    assert OfType([c], CheckpointContent) == [c] && OfType([c], CheckpointSummaryFile) == [];
  }

  lemma PairUpOne(s: FileMetadata, c: FileMetadata)
    requires s.start == c.start == 0 && s.end == c.end
    ensures PairUp(SortByStart([s]), SortByStart([c])) == Accepted([(s, c)])
  {
    SortOfSorted([c]);
    SortOfSorted([s]);
    assert PairUp([s], [c]).pairs == [(s, c)];
  }

  lemma OnePairAccepted(s: FileMetadata, c: FileMetadata, next: u64)
    requires s.fileType == CheckpointSummaryFile && c.fileType == CheckpointContent
    requires s.start == c.start == 0 && s.end == c.end
    ensures VerifyManifest(ManifestV1(1, next, [c, s], 0)) == Accepted([(s, c)])
  {
    OfTypeOfTwo(s, c);
    PairUpOne(s, c);
  }

  /** The check promises every checkpoint up to the latest available one; a manifest may claim
      more checkpoints than its files hold and still be accepted. */
  lemma AcceptedMayMissTheLatest()
    ensures exists m: Manifest :: VerifyManifest(m).Accepted? && m.nextCheckpointSeqNum == 10
                                  && !CoversUpTo(VerifyManifest(m).pairs, m.nextCheckpointSeqNum)
  {
    var s := FileMetadata(CheckpointSummaryFile, 0, 0, 5, ZERO_DIGEST);
    var c := FileMetadata(CheckpointContent, 0, 0, 5, ZERO_DIGEST);
    var m := ManifestV1(1, 10, [c, s], 0);
    OnePairAccepted(s, c, 10);
    assert m.nextCheckpointSeqNum == 10 && !Covered([(s, c)], 9);
  }

  // ---------------------------------------------------------------- binary search

  datatype Search = Found(index: nat) | Missing(index: nat)

  predicate OrderedByStart(pairs: seq<FilePair>) {
    forall i, j | 0 <= i < j < |pairs| :: pairs[i].0.start <= pairs[j].0.start
  }

  /** What `binary_search_by_key` promises: an index with the key, or the place between smaller and larger
      keys.  Where keys repeat it may return any of them. */
  predicate Answers(pairs: seq<FilePair>, key: nat, r: Search) {
    match r
    case Found(i) => i < |pairs| && pairs[i].0.start == key
    case Missing(i) =>
      && i <= |pairs|
      && (forall k | 0 <= k < i :: pairs[k].0.start < key)
      && (forall k | i <= k < |pairs| :: key < pairs[k].0.start)
  }

  type Searcher = (seq<FilePair>, nat) -> Search

  /** Any search of the standard library's kind. */
  ghost predicate IsSearch(search: Searcher) {
    forall pairs, key :: OrderedByStart(pairs) ==> Answers(pairs, key, search(pairs, key))
  }

  /** Bisection over the half-open window [lo, hi). */
  function SearchByStart(pairs: seq<FilePair>, key: nat, lo: nat, hi: nat): (r: Search)
    requires lo <= hi <= |pairs| && OrderedByStart(pairs)
    requires forall i | 0 <= i < lo :: pairs[i].0.start < key
    requires forall i | hi <= i < |pairs| :: key < pairs[i].0.start
    ensures Answers(pairs, key, r)
    decreases hi - lo
  {
    if lo == hi then Missing(lo)
    else
      var mid := lo + (hi - lo) / 2;
      if pairs[mid].0.start < key then SearchByStart(pairs, key, mid + 1, hi)
      else if key < pairs[mid].0.start then SearchByStart(pairs, key, lo, mid)
      else Found(mid)
  }

  /** Bisection is such a search. */
  lemma BisectionIsSearch() returns (search: Searcher)
    ensures IsSearch(search)
  {
    search := (pairs: seq<FilePair>, key: nat) =>
      if OrderedByStart(pairs) then SearchByStart(pairs, key, 0, |pairs|) else Missing(0);
  }

  // ---------------------------------------------------------------- handing over

  datatype Item = Item(summary: CertifiedSummary, contents: Contents)

  /** What the fetched files of a range yield, in order, up to the first file that cannot be
      fetched or has the wrong magic. */
  datatype Delivery = Delivery(items: seq<Item>, complete: bool)

  predicate Fetched(remote: map<Path, FileData>, pair: FilePair) {
    && pair.0.FilePath() in remote && remote[pair.0.FilePath()].SummaryFile?
    && pair.1.FilePath() in remote && remote[pair.1.FilePath()].ContentFile?
  }

  function Zip(summaries: seq<CertifiedSummary>, contents: seq<Contents>): seq<Item> {
    seq(Min(|summaries|, |contents|),
        i requires 0 <= i < Min(|summaries|, |contents|) => Item(summaries[i], contents[i]))
  }

  function InRange(items: seq<Item>, a: nat, b: nat): seq<Item> {
    if items == [] then []
    else InRange(Init(items), a, b)
         + (if a <= Last(items).summary.data.sequenceNumber < b then [Last(items)] else [])
  }

  function Deliver(remote: map<Path, FileData>, pairs: seq<FilePair>, a: nat, b: nat): Delivery {
    if pairs == [] then Delivery([], true)
    else
      var before := Deliver(remote, Init(pairs), a, b);
      if !before.complete then before
      else if !Fetched(remote, Last(pairs)) then Delivery(before.items, false)
      else
        var items := Zip(remote[Last(pairs).0.FilePath()].summaries, remote[Last(pairs).1.FilePath()].contents);
        Delivery(before.items + InRange(items, a, b), true)
  }

  datatype Selection = Selected(files: seq<FilePair>) | Refused | Crashed

  predicate StrictlyIncreasing(pairs: seq<FilePair>) {
    forall i, j | 0 <= i < j < |pairs| :: pairs[i].0.start < pairs[j].0.start
  }

  /** The file indices `read` visits for [a, b); None when the start index would underflow. */
  function FileWindow(search: Searcher, pairs: seq<FilePair>, a: nat, b: nat): Option<(nat, nat)> {
    var first := search(pairs, a);
    var last := search(pairs, b).index;
    if first.Found? then Some((first.index, last))
    else if first.index == 0 then None
    else Some((first.index - 1, last))
  }

  /** The pairs with an index in [i, j). */
  function Within(pairs: seq<FilePair>, i: nat, j: nat): seq<FilePair> {
    var end := if j <= |pairs| then j else |pairs|;
    if i <= end then pairs[i..end] else []
  }

  /** The files a reader visits for [a, b): the check of the manifest and the two searches. */
  function Select(search: Searcher, m: Manifest, a: nat, b: nat): Selection {
    if m.nextCheckpointSeqNum == 0 || a > m.nextCheckpointSeqNum - 1 then Refused
    else
      match VerifyManifest(m)
      case EmptyArchive => Refused
      case AssertFailed => Crashed
      case Accepted(pairs) =>
        match FileWindow(search, pairs, a, b)
        case None => Crashed
        case Some((i, j)) => Selected(Within(pairs, i, j))
  }

  // ---------------------------------------------------------------- on manifests of the writer

  ghost function ItemAt(w: World, c: nat): Item { Item(w.chain(c).summary, w.chain(c).contents) }

  /** The chain's own pairs from `a` up to `b`. */
  ghost function ChainItems(w: World, a: nat, b: nat): seq<Item> {
    seq(if a <= b then b - a else 0, i requires 0 <= i => ItemAt(w, a + i))
  }

  ghost function SegPairs(w: World, segs: seq<Segment>): (r: seq<FilePair>)
    requires Tiles(w, segs)
  {
    if segs == [] then [] else SegPairs(w, Init(segs)) + [(SummaryMeta(w, Last(segs)), ContentMeta(w, Last(segs)))]
  }

  lemma {:induction false} SegPairsAt(w: World, segs: seq<Segment>)
    requires Tiles(w, segs)
    ensures |SegPairs(w, segs)| == |segs|
    ensures forall k | 0 <= k < |segs| ::
              segs[k].start <= segs[k].end && SegPairs(w, segs)[k] == (SummaryMeta(w, segs[k]), ContentMeta(w, segs[k]))
  {
    if segs == [] {
    } else {
      SegPairsAt(w, Init(segs));
    }
  }

  lemma {:induction false} OfTypeFilesOf(w: World, segs: seq<Segment>)
    requires Tiles(w, segs)
    ensures OfType(FilesOf(w, segs), CheckpointSummaryFile) == Firsts(SegPairs(w, segs))
    ensures OfType(FilesOf(w, segs), CheckpointContent) == Seconds(SegPairs(w, segs))
  {
    if segs == [] {
    } else {
      var last := Last(segs);
      OfTypeFilesOf(w, Init(segs));
      var files := FilesOf(w, segs);
      assert Init(files) == FilesOf(w, Init(segs)) + [ContentMeta(w, last)];
      assert Init(Init(files)) == FilesOf(w, Init(segs));
      SegPairsAt(w, segs);
      SegPairsAt(w, Init(segs));
    }
  }

  lemma Adjacent(w: World, segs: seq<Segment>, k: nat)
    requires Tiles(w, segs) && 0 < k < |segs|
    ensures segs[k - 1].end == segs[k].start < segs[k].end
  {
    TileAt(w, segs, k);
    assert Last(segs[..k]) == segs[k - 1];
  }

  lemma SegPairsIncrease(w: World, segs: seq<Segment>)
    requires Tiles(w, segs)
    ensures StrictlyIncreasing(SegPairs(w, segs))
    ensures Contiguous(Firsts(SegPairs(w, segs))) && Contiguous(Seconds(SegPairs(w, segs)))
  {
    SegPairsAt(w, segs);
    forall i, j | 0 <= i < j < |segs| ensures segs[i].start < segs[j].start {
      TilesOrdered(w, segs, i, j);
      TileAt(w, segs, i);
    }
    var pairs := SegPairs(w, segs);
    forall i | 1 <= i < |segs| ensures Continues(Firsts(pairs), i) && Continues(Seconds(pairs), i) {
      Adjacent(w, segs, i);
    }
  }

  lemma SegPairsSorted(w: World, segs: seq<Segment>)
    requires Tiles(w, segs) && segs != []
    ensures var pairs := SegPairs(w, segs);
      && pairs != [] && pairs[0].0.start == 0 && SameRanges(Firsts(pairs), Seconds(pairs))
      && SortByStart(Firsts(pairs)) == Firsts(pairs) && SortByStart(Seconds(pairs)) == Seconds(pairs)
  {
    var pairs := SegPairs(w, segs);
    SegPairsAt(w, segs);
    SegPairsIncrease(w, segs);
    TileAt(w, segs, 0);
    SortOfSorted(Firsts(pairs));
    SortOfSorted(Seconds(pairs));
  }

  /** A manifest the writer publishes is accepted, and its pairs are its segments in order. */
  lemma WriterManifestAccepted(w: World, segs: seq<Segment>)
    requires Tiles(w, segs) && segs != []
    ensures VerifyManifest(ManifestOf(w, segs)) == Accepted(SegPairs(w, segs))
  {
    OfTypeFilesOf(w, segs);
    SegPairsSorted(w, segs);
    SegPairsIncrease(w, segs);
    PairUpPairs(SegPairs(w, segs));
  }

  lemma ChainItemsSnoc(w: World, a: nat, b: nat)
    requires a < b
    ensures Init(ChainItems(w, a, b)) == ChainItems(w, a, b - 1)
    ensures Last(ChainItems(w, a, b)) == ItemAt(w, b - 1)
  {
  }

  lemma {:induction false} InRangeOfChain(w: World, s: nat, e: nat, a: nat, b: nat)
    requires w.GoodChain() && s <= e
    ensures InRange(ChainItems(w, s, e), a, b) == ChainItems(w, Max(s, a), Min(e, b))
    decreases e
  {
    if s < e {
      InRangeOfChain(w, s, e - 1, a, b);
      InRangeStep(w, s, e, a, b);
      ClipStep(w, s, e, a, b);
    }
  }

  lemma InRangeStep(w: World, s: nat, e: nat, a: nat, b: nat)
    requires w.GoodChain() && s < e
    ensures InRange(ChainItems(w, s, e), a, b)
         == InRange(ChainItems(w, s, e - 1), a, b) + if a <= e - 1 < b then [ItemAt(w, e - 1)] else []
  {
    assert w.GoodEntry(e - 1);
    ChainItemsSnoc(w, s, e);
  }

  lemma ClipStep(w: World, s: nat, e: nat, a: nat, b: nat)
    requires s < e
    ensures ChainItems(w, Max(s, a), Min(e, b))
         == ChainItems(w, Max(s, a), Min(e - 1, b)) + if a <= e - 1 < b then [ItemAt(w, e - 1)] else []
  {
  }

  lemma ZipOfChain(w: World, s: nat, e: nat)
    requires s <= e
    ensures Zip(w.Summaries(s, e), w.Contents(s, e)) == ChainItems(w, s, e)
  {
    var zipped := Zip(w.Summaries(s, e), w.Contents(s, e));
    forall i | 0 <= i < e - s ensures zipped[i] == ItemAt(w, s + i) { }
  }

  /** The files of one segment yield its checkpoints, clipped to [a, b). */
  lemma DeliverLast(w: World, remote: map<Path, FileData>, before: seq<FilePair>, seg: Segment, a: nat, b: nat)
    requires w.GoodChain() && HasContent(w, remote, seg) && HasSummary(w, remote, seg)
    requires Deliver(remote, before, a, b).complete
    ensures Deliver(remote, before + [(SummaryMeta(w, seg), ContentMeta(w, seg))], a, b)
         == Delivery(Deliver(remote, before, a, b).items + ChainItems(w, Max(seg.start, a), Min(seg.end, b)), true)
  {
    var pairs := before + [(SummaryMeta(w, seg), ContentMeta(w, seg))];
    assert Init(pairs) == before;
    ZipOfChain(w, seg.start, seg.end);
    InRangeOfChain(w, seg.start, seg.end, a, b);
  }

  lemma ClipJoin(w: World, s: nat, m: nat, e: nat, a: nat, b: nat)
    requires s <= m <= e
    ensures ChainItems(w, Max(s, a), Min(m, b)) + ChainItems(w, Max(m, a), Min(e, b))
         == ChainItems(w, Max(s, a), Min(e, b))
  {
  }

  /** One more segment extends a delivery that reached its start. */
  lemma DeliverMore(w: World, remote: map<Path, FileData>, before: seq<FilePair>, seg: Segment, s: nat, a: nat, b: nat)
    requires w.GoodChain() && HasContent(w, remote, seg) && HasSummary(w, remote, seg) && s <= seg.start <= seg.end
    requires Deliver(remote, before, a, b) == Delivery(ChainItems(w, Max(s, a), Min(seg.start, b)), true)
    ensures Deliver(remote, before + [(SummaryMeta(w, seg), ContentMeta(w, seg))], a, b)
         == Delivery(ChainItems(w, Max(s, a), Min(seg.end, b)), true)
  {
    DeliverLast(w, remote, before, seg, a, b);
    ClipJoin(w, s, seg.start, seg.end, a, b);
  }

  /** What was fetched of a segment, if anything, is what the chain determines. */
  ghost predicate GenuineAt(w: World, got: map<Path, FileData>, seg: Segment) {
    var con, sum := Path(CheckpointContent, seg.epoch, seg.start), Path(CheckpointSummaryFile, seg.epoch, seg.start);
    && seg.start <= seg.end
    && (con in got ==> got[con] == ContentData(w, seg))
    && (sum in got ==> got[sum] == SummaryData(w, seg))
  }

  ghost predicate Genuine(w: World, got: map<Path, FileData>, segs: seq<Segment>) {
    forall k | 0 <= k < |segs| :: GenuineAt(w, got, segs[k])
  }

  predicate AllFetched(got: map<Path, FileData>, pairs: seq<FilePair>) {
    forall k | 0 <= k < |pairs| :: Fetched(got, pairs[k])
  }

  /** Consecutive segments, and the manifest entries that name their files. */
  ghost predicate StretchAt(w: World, got: map<Path, FileData>, segs: seq<Segment>, pairs: seq<FilePair>, k: nat) {
    && k < |segs| == |pairs| && segs[0].start <= segs[k].start <= segs[k].end
    && GenuineAt(w, got, segs[k])
    && pairs[k] == (SummaryMeta(w, segs[k]), ContentMeta(w, segs[k]))
    && (k > 0 ==> segs[k - 1].end == segs[k].start)
  }

  ghost predicate Stretch(w: World, got: map<Path, FileData>, segs: seq<Segment>, pairs: seq<FilePair>) {
    segs != [] && |segs| == |pairs| && forall k | 0 <= k < |segs| :: StretchAt(w, got, segs, pairs, k)
  }

  lemma StretchInit(w: World, got: map<Path, FileData>, segs: seq<Segment>, pairs: seq<FilePair>)
    requires Stretch(w, got, segs, pairs) && |segs| > 1
    ensures Stretch(w, got, Init(segs), Init(pairs)) && Last(Init(segs)).end == Last(segs).start
  {
    assert StretchAt(w, got, segs, pairs, |segs| - 1);
    forall k | 0 <= k < |segs| - 1 ensures StretchAt(w, got, Init(segs), Init(pairs), k) {
      assert StretchAt(w, got, segs, pairs, k);
    }
  }

  /** A delivery hands over part of `all` from its beginning, and all of it exactly when every file came. */
  ghost predicate HandsOver(got: map<Path, FileData>, pairs: seq<FilePair>, a: nat, b: nat, all: seq<Item>) {
    var d := Deliver(got, pairs, a, b);
    d.items <= all && (d.complete ==> d.items == all) && (d.complete <==> AllFetched(got, pairs))
  }

  lemma AllFetchedSnoc(got: map<Path, FileData>, pairs: seq<FilePair>)
    requires pairs != []
    ensures AllFetched(got, pairs) <==> AllFetched(got, Init(pairs)) && Fetched(got, Last(pairs))
  {
    if AllFetched(got, Init(pairs)) && Fetched(got, Last(pairs)) {
      forall k | 0 <= k < |pairs| ensures Fetched(got, pairs[k]) {
        if k < |pairs| - 1 { assert Fetched(got, Init(pairs)[k]); }
      }
    }
    if AllFetched(got, pairs) {
      forall k | 0 <= k < |Init(pairs)| ensures Fetched(got, Init(pairs)[k]) { assert Fetched(got, pairs[k]); }
    }
  }

  /** One more segment: fetched, it completes what a complete delivery began; otherwise nothing is added. */
  lemma HandsOverMore(w: World, got: map<Path, FileData>, pairs: seq<FilePair>, seg: Segment, s: nat, a: nat, b: nat)
    requires w.GoodChain() && GenuineAt(w, got, seg) && s <= seg.start
    requires pairs != [] && Last(pairs) == (SummaryMeta(w, seg), ContentMeta(w, seg))
    requires HandsOver(got, Init(pairs), a, b, ChainItems(w, Max(s, a), Min(seg.start, b)))
    ensures HandsOver(got, pairs, a, b, ChainItems(w, Max(s, a), Min(seg.end, b)))
  {
    var before := Deliver(got, Init(pairs), a, b);
    assert pairs == Init(pairs) + [Last(pairs)];
    AllFetchedSnoc(got, pairs);
    ClipJoin(w, s, seg.start, seg.end, a, b);
    if before.complete && Fetched(got, Last(pairs)) { DeliverMore(w, got, Init(pairs), seg, s, a, b); }
  }

  /** The files of consecutive segments yield the chain's pairs over their union, clipped to [a, b). */
  lemma {:induction false} DeliverStretch(
    w: World, got: map<Path, FileData>, segs: seq<Segment>, pairs: seq<FilePair>, a: nat, b: nat)
    requires w.GoodChain() && Stretch(w, got, segs, pairs)
    ensures HandsOver(got, pairs, a, b, ChainItems(w, Max(segs[0].start, a), Min(Last(segs).end, b)))
    decreases |segs|
  {
    var seg := Last(segs);
    assert StretchAt(w, got, segs, pairs, |segs| - 1);
    if |segs| > 1 {
      StretchInit(w, got, segs, pairs);
      DeliverStretch(w, got, Init(segs), Init(pairs), a, b);
    } else {
      assert Init(pairs) == [] && ChainItems(w, Max(seg.start, a), Min(seg.start, b)) == [];
    }
    HandsOverMore(w, got, pairs, seg, segs[0].start, a, b);
  }

  lemma SegmentsAreStretch(w: World, got: map<Path, FileData>, segs: seq<Segment>, i: nat, j: nat)
    requires Tiles(w, segs) && Genuine(w, got, segs) && i < j <= |segs| == |SegPairs(w, segs)|
    ensures Stretch(w, got, segs[i..j], SegPairs(w, segs)[i..j])
  {
    SegPairsAt(w, segs);
    forall k | 0 <= k < j - i ensures StretchAt(w, got, segs[i..j], SegPairs(w, segs)[i..j], k) {
      assert GenuineAt(w, got, segs[i + k]);
      TileAt(w, segs, i);
      if k > 0 {
        Adjacent(w, segs, i + k);
        TilesOrdered(w, segs, i, i + k);
      }
    }
  }

  /** Where the two searches land, when the list begins at 0. */
  lemma WindowBounds(search: Searcher, pairs: seq<FilePair>, a: nat, b: nat)
    requires IsSearch(search) && StrictlyIncreasing(pairs) && pairs != [] && pairs[0].0.start == 0
    ensures var window := FileWindow(search, pairs, a, b);
      && window.Some?
      && var (i, j) := window.value;
      && i < |pairs| && j <= |pairs|
      && pairs[i].0.start <= a && (i + 1 < |pairs| ==> a < pairs[i + 1].0.start)
      && (j < |pairs| ==> b <= pairs[j].0.start) && (j > 0 ==> pairs[j - 1].0.start < b)
  {
    assert OrderedByStart(pairs);
    assert Answers(pairs, a, search(pairs, a)) && Answers(pairs, b, search(pairs, b));
  }

  lemma WindowOfSegments(search: Searcher, w: World, segs: seq<Segment>, a: nat, b: nat) returns (i: nat, j: nat)
    requires IsSearch(search) && Tiles(w, segs) && segs != [] && a < EndOf(segs)
    ensures |SegPairs(w, segs)| == |segs| && FileWindow(search, SegPairs(w, segs), a, b) == Some((i, j))
    ensures i < |segs| && j <= |segs|
    ensures segs[i].start <= a < segs[i].end
    ensures (j < |segs| ==> b <= segs[j].start) && (j > 0 ==> segs[j - 1].start < b)
  {
    SegPairsAt(w, segs);
    SegPairsIncrease(w, segs);
    TileAt(w, segs, 0);
    WindowBounds(search, SegPairs(w, segs), a, b);
    var window := FileWindow(search, SegPairs(w, segs), a, b).value;
    i, j := window.0, window.1;
    if i + 1 < |segs| { Adjacent(w, segs, i + 1); }
  }

  /** The upper end of the window: clipping to its last segment or to the whole archive is the same. */
  lemma WindowEnd(w: World, segs: seq<Segment>, b: nat, j: nat)
    requires Tiles(w, segs) && 0 < j <= |segs|
    requires (j < |segs| ==> b <= segs[j].start) && segs[j - 1].start < b
    ensures Min(segs[j - 1].end, b) == Min(b, EndOf(segs))
  {
    TileAt(w, segs, |segs| - 1);
    if j < |segs| {
      Adjacent(w, segs, j);
      if j < |segs| - 1 { TilesOrdered(w, segs, j, |segs| - 1); }
    }
  }

  lemma WindowIsEmpty(w: World, segs: seq<Segment>, a: nat, b: nat, i: nat, j: nat)
    requires Tiles(w, segs) && j <= i < |segs| && segs[i].start <= a && b <= segs[j].start
    ensures b <= a
  {
    if j < i {
      TilesOrdered(w, segs, j, i);
      TileAt(w, segs, j);
    }
  }

  lemma WindowDelivers(w: World, got: map<Path, FileData>, segs: seq<Segment>, a: nat, b: nat, i: nat, j: nat)
    requires w.GoodChain() && Tiles(w, segs) && Genuine(w, got, segs)
    requires i < |segs| && j <= |segs| && |SegPairs(w, segs)| == |segs|
    requires segs[i].start <= a < segs[i].end
    requires j < |segs| ==> b <= segs[j].start
    requires j > 0 ==> segs[j - 1].start < b
    ensures HandsOver(got, Within(SegPairs(w, segs), i, j), a, b, ChainItems(w, a, Min(b, EndOf(segs))))
  {
    if i < j {
      SegmentsAreStretch(w, got, segs, i, j);
      DeliverStretch(w, got, segs[i..j], SegPairs(w, segs)[i..j], a, b);
      WindowEnd(w, segs, b, j);
    } else {
      WindowIsEmpty(w, segs, a, b, i, j);
      assert Within(SegPairs(w, segs), i, j) == [];
    }
  }

  lemma SelectFrom(search: Searcher, m: Manifest, a: nat, b: nat, pairs: seq<FilePair>, i: nat, j: nat)
    requires a < m.nextCheckpointSeqNum && VerifyManifest(m) == Accepted(pairs)
    requires FileWindow(search, pairs, a, b) == Some((i, j))
    ensures Select(search, m, a, b) == Selected(Within(pairs, i, j))
  {
  }

  /** The code panics over a manifest exactly when one of its assertions fails: the start index never
      underflows. */
  lemma SelectCrashesIff(search: Searcher, m: Manifest, a: nat, b: nat)
    requires IsSearch(search)
    ensures Select(search, m, a, b).Crashed? <==> a < m.nextCheckpointSeqNum && VerifyManifest(m).AssertFailed?
  {
    if VerifyManifest(m).Accepted? {
      AcceptedAreChained(m);
      var pairs := VerifyManifest(m).pairs;
      assert OrderedByStart(pairs);
      assert Answers(pairs, a, search(pairs, a));
    }
  }

  /** A range is refused exactly when it starts past what the manifest claims, or the manifest is empty. */
  lemma SelectRefusesIff(search: Searcher, m: Manifest, a: nat, b: nat)
    ensures Select(search, m, a, b).Refused? <==> a >= m.nextCheckpointSeqNum || m.fileMetadata == []
  {
  }

  /** `read` on a manifest of the writer, whatever part of its files could be fetched: for every range
      that starts at or below the latest checkpoint it hands over the archived checkpoints of the range
      from its start on, each once, in order, with its own contents, up to the first file that did not
      come, and all of them exactly when every file came. */
  lemma ReadHandsOverTheRange(
    search: Searcher, w: World, got: map<Path, FileData>, segs: seq<Segment>, a: nat, b: nat)
    requires IsSearch(search) && w.GoodChain() && Tiles(w, segs) && segs != [] && Genuine(w, got, segs)
    requires a < EndOf(segs)
    ensures var r := Select(search, ManifestOf(w, segs), a, b);
      r.Selected? && HandsOver(got, r.files, a, b, ChainItems(w, a, Min(b, EndOf(segs))))
  {
    var i, j := WindowOfSegments(search, w, segs, a, b);
    WriterManifestAccepted(w, segs);
    WindowDelivers(w, got, segs, a, b, i, j);
    SelectFrom(search, ManifestOf(w, segs), a, b, SegPairs(w, segs), i, j);
  }

  ghost predicate FetchedAt(tr: seq<System>, i: nat, p: Path, data: FileData) {
    exists j | i <= j < |tr| :: p in tr[j].remote && tr[j].remote[p] == data
  }

  /** Every file that came was there at some moment from i on, each at a moment of its own; a path that
      is missing could not be fetched. */
  ghost predicate FetchedFrom(tr: seq<System>, i: nat, got: map<Path, FileData>) {
    forall p | p in got :: FetchedAt(tr, i, p, got[p])
  }

  lemma FetchedIsGenuine(w: World, size: nat, tr: seq<System>, i: nat, got: map<Path, FileData>)
    requires w.GoodChain() && Run(w, size, tr) && i < |tr| && FetchedFrom(tr, i, got)
    ensures Genuine(w, got, Published(tr[i]))
  {
    RunKeeps(w, size, tr, i);
    var segs := Published(tr[i]);
    forall k | 0 <= k < |segs| ensures GenuineAt(w, got, segs[k]) {
      TileAt(w, segs, k);
      FileIsGenuine(w, size, tr, i, got, k, Path(CheckpointContent, segs[k].epoch, segs[k].start));
      FileIsGenuine(w, size, tr, i, got, k, Path(CheckpointSummaryFile, segs[k].epoch, segs[k].start));
    }
  }

  /** A file of published segment k, fetched at any later moment. */
  lemma FileIsGenuine(w: World, size: nat, tr: seq<System>, i: nat, got: map<Path, FileData>, k: nat, p: Path)
    requires w.GoodChain() && Run(w, size, tr) && i < |tr| && FetchedFrom(tr, i, got)
    requires k < |Published(tr[i])|
    requires var seg := Published(tr[i])[k]; seg.start <= seg.end && p.epochNum == seg.epoch && p.start == seg.start
    ensures var seg := Published(tr[i])[k];
      p in got ==> got[p] == if p.fileType == CheckpointContent then ContentData(w, seg) else SummaryData(w, seg)
  {
    if p in got {
      assert FetchedAt(tr, i, p, got[p]);
      var j :| i <= j < |tr| && p in tr[j].remote && tr[j].remote[p] == got[p];
      RunKeeps(w, size, tr, j);
      RunOnlyAppends(w, size, tr, i, j);
      assert Published(tr[j])[k] == Published(tr[i])[k];
      assert HasContent(w, tr[j].remote, Published(tr[j])[k]) && HasSummary(w, tr[j].remote, Published(tr[j])[k]);
    }
  }

  /** A reader that took its manifest at time i of a run, writer restarts included, and fetched what it
      could of the files, each at any later moment, is handed the checkpoints it asked for from the start
      of the range on, and all of them exactly when every file came. */
  lemma ReadDuringRun(
    search: Searcher, w: World, size: nat, tr: seq<System>, i: nat, got: map<Path, FileData>, a: nat, b: nat)
    requires IsSearch(search) && w.GoodChain() && Run(w, size, tr) && i < |tr| && FetchedFrom(tr, i, got)
    requires tr[i].remoteManifest.Some? && a < tr[i].remoteManifest.value.nextCheckpointSeqNum
    ensures var m := tr[i].remoteManifest.value;
      var r := Select(search, m, a, b);
      r.Selected? && HandsOver(got, r.files, a, b, ChainItems(w, a, Min(b, m.nextCheckpointSeqNum)))
  {
    RunKeeps(w, size, tr, i);
    FetchedIsGenuine(w, size, tr, i, got);
    ReadHandsOverTheRange(search, w, got, Published(tr[i]), a, b);
  }

  lemma AllFetchedWithin(got: map<Path, FileData>, pairs: seq<FilePair>, i: nat, j: nat)
    requires AllFetched(got, pairs)
    ensures AllFetched(got, Within(pairs, i, j))
  {
    var part := Within(pairs, i, j);
    forall k | 0 <= k < |part| ensures Fetched(got, part[k]) { assert Fetched(got, pairs[i + k]); }
  }

  lemma PresentAreFetched(w: World, remote: map<Path, FileData>, segs: seq<Segment>)
    requires Tiles(w, segs) && AllPresent(w, remote, segs)
    ensures AllFetched(remote, SegPairs(w, segs))
  {
    var pairs := SegPairs(w, segs);
    SegPairsAt(w, segs);
    forall k | 0 <= k < |pairs| ensures Fetched(remote, pairs[k]) {
      assert HasContent(w, remote, segs[k]) && HasSummary(w, remote, segs[k]);
    }
  }

  /** At every moment from i on the remote store has all files a reader with the manifest of moment i asks
      for. */
  lemma FilesStayFetchable(
    search: Searcher, w: World, size: nat, tr: seq<System>, i: nat, j: nat, a: nat, b: nat)
    requires w.GoodChain() && Run(w, size, tr) && i <= j < |tr| && tr[i].remoteManifest.Some?
    ensures FetchedFrom(tr, i, tr[j].remote)
    ensures var r := Select(search, tr[i].remoteManifest.value, a, b);
      r.Selected? ==> AllFetched(tr[j].remote, r.files)
  {
    RunKeeps(w, size, tr, i);
    RunKeeps(w, size, tr, j);
    RunOnlyAppends(w, size, tr, i, j);
    var segs := Published(tr[i]);
    var pairs := SegPairs(w, segs);
    WriterManifestAccepted(w, segs);
    forall k | 0 <= k < |segs| ensures HasContent(w, tr[j].remote, segs[k]) && HasSummary(w, tr[j].remote, segs[k]) {
      assert Published(tr[j])[k] == segs[k];
    }
    PresentAreFetched(w, tr[j].remote, segs);
    var window := FileWindow(search, pairs, a, b);
    if window.Some? { AllFetchedWithin(tr[j].remote, pairs, window.value.0, window.value.1); }
  }
}
