/** The rotating log file of internal/antivpn/rotatingfile.go. A file's content is
    the sequence of blocks appended to it; renames, compressions, deletions and
    writes are abstract steps whose success the environment decides. */
module Rotation {
  import opened Text
  import Sets
  import HostPort

  // ----- files -----------------------------------------------------------------

  type Content = seq<string>

  function Bytes(c: Content): string {
    if c == [] then "" else c[0] + Bytes(c[1..])
  }

  function Length(c: Content): nat {
    if c == [] then 0 else |c[0]| + Length(c[1..])
  }

  lemma {:induction false} LengthCountsBytes(c: Content)
    ensures Length(c) == |Bytes(c)|
  {
    if c == [] {
    } else {
      LengthCountsBytes(c[1..]);
    }
  }

  lemma {:induction false} BytesAppend(a: Content, b: Content)
    ensures Bytes(a + b) == Bytes(a) + Bytes(b) && Length(a + b) == Length(a) + Length(b)
  {
    if a == [] {
      assert a + b == b;
    } else {
      assert (a + b)[1..] == a[1..] + b;
      BytesAppend(a[1..], b);
    }
  }

  lemma LengthSnoc(a: Content, block: string)
    ensures Length(a + [block]) == Length(a) + |block| && Bytes(a + [block]) == Bytes(a) + block
  {
    BytesAppend(a, [block]);
    assert Bytes([block]) == block + Bytes([]);
  }

  datatype Gz = Gz(content: Content, modTime: int)

  /** The directory: the live file, and its archives by the part of their name after
      "<path>.", uncompressed and compressed. */
  datatype Disk = Disk(current: Option<Content>, plain: map<string, Content>, gz: map<string, Gz>)

  function Live(d: Disk): Content {
    match d.current
    case None => []
    case Some(c) => c
  }

  // ----- archive names ------------------------------------------------------------

  const LAST_SUFFIX := 999

  function Candidate(stamp: string, k: nat): string {
    if k == 0 then stamp else stamp + "-" + HostPort.PrintNat(k)
  }

  predicate Free(d: Disk, name: string) { name !in d.plain && name !in d.gz }

  /** The first free candidate from k on; the last one is taken unchecked. */
  function FirstFree(d: Disk, stamp: string, k: nat): string
    requires k <= LAST_SUFFIX
    decreases LAST_SUFFIX - k
  {
    if k == LAST_SUFFIX || Free(d, Candidate(stamp, k)) then Candidate(stamp, k) else FirstFree(d, stamp, k + 1)
  }

  /** The numbered name k of a second. */
  lemma {:induction false} FirstFreeFrom(d: Disk, stamp: string, k: nat, i: nat)
    requires 1 <= k <= i <= 999
    requires forall j :: k <= j < i ==> !Free(d, stamp + "-" + HostPort.PrintNat(j))
    requires i == 999 || Free(d, stamp + "-" + HostPort.PrintNat(i))
    ensures FirstFree(d, stamp, k) == stamp + "-" + HostPort.PrintNat(i)
    decreases i - k
  {
    if k < i {
      FirstFreeFrom(d, stamp, k + 1, i);
    }
  }

  lemma UnusedStampIsTaken(d: Disk, stamp: string)
    requires Free(d, stamp)
    ensures FirstFree(d, stamp, 0) == stamp
  {
  }

  /** When the time stamp is used, the first unused one of stamp-1 to stamp-999 is the
      name, or stamp-999 when there is none. */
  lemma FirstUnusedNumberIsTaken(d: Disk, stamp: string, i: nat)
    requires !Free(d, stamp) && 1 <= i <= 999
    requires forall j: nat :: 1 <= j < i ==> !Free(d, stamp + "-" + HostPort.PrintNat(j))
    requires i == 999 || Free(d, stamp + "-" + HostPort.PrintNat(i))
    ensures FirstFree(d, stamp, 0) == stamp + "-" + HostPort.PrintNat(i)
  {
    FirstFreeFrom(d, stamp, 1, i);
  }

  lemma CandidatesDiffer(stamp: string, i: nat, k: nat)
    requires i != k
    ensures Candidate(stamp, i) != Candidate(stamp, k)
  {
    HostPort.AtoiUndoesPrint(i);
    HostPort.AtoiUndoesPrint(k);
    SuffixDecides(stamp + "-", HostPort.PrintNat(i), HostPort.PrintNat(k));
  }

  lemma SuffixDecides(a: string, b: string, c: string)
    ensures a + b == a + c ==> b == c
  {
    if a + b == a + c {
      assert b == (a + b)[|a|..] == (a + c)[|a|..] == c;
    }
  }

  function Candidates(stamp: string, n: nat): set<string> {
    if n == 0 then {} else Candidates(stamp, n - 1) + {Candidate(stamp, n - 1)}
  }

  lemma {:induction false} CandidatesAre(stamp: string, n: nat)
    ensures |Candidates(stamp, n)| == n
    ensures forall name :: name in Candidates(stamp, n) <==> exists k: nat :: k < n && name == Candidate(stamp, k)
  {
    if n == 0 {
    } else {
      CandidatesAre(stamp, n - 1);
      forall k: nat | k < n - 1
        ensures Candidate(stamp, k) != Candidate(stamp, n - 1)
      {
        CandidatesDiffer(stamp, k, n - 1);
      }
    }
  }

  /** With fewer than a thousand archives in the directory a name is available. */
  lemma FewArchivesLeaveAName(d: Disk, stamp: string)
    requires |d.plain.Keys + d.gz.Keys| < 1000
    ensures NameAvailable(d, stamp)
  {
    var all := Candidates(stamp, LAST_SUFFIX + 1);
    CandidatesAre(stamp, LAST_SUFFIX + 1);
    if all <= d.plain.Keys + d.gz.Keys {
      Sets.SubsetSize(all, d.plain.Keys + d.gz.Keys);
    } else {
      var name :| name in all && name !in d.plain.Keys + d.gz.Keys;
      var k: nat :| k < LAST_SUFFIX + 1 && name == Candidate(stamp, k);
      assert Free(d, Candidate(stamp, k));
    }
  }

  method UniqueArchivePath(d: Disk, stamp: string) returns (candidate: string)
    ensures candidate == FirstFree(d, stamp, 0)
  {
    candidate := Candidate(stamp, 0);
    var suffix := 1;
    while suffix < 1000
      invariant 1 <= suffix <= 1000
      invariant candidate == Candidate(stamp, suffix - 1)
      invariant FirstFree(d, stamp, 0) == FirstFree(d, stamp, suffix - 1)
    {
      if candidate !in d.plain && candidate !in d.gz {
        return;
      }
      candidate := Candidate(stamp, suffix);
      if suffix == LAST_SUFFIX {
        return;
      }
      suffix := suffix + 1;
    }
  }

  ghost predicate NameAvailable(d: Disk, stamp: string) {
    exists k: nat :: k <= LAST_SUFFIX && Free(d, Candidate(stamp, k))
  }

  lemma {:induction false} FirstFreeIsFree(d: Disk, stamp: string, k: nat)
    requires k <= LAST_SUFFIX
    ensures Free(d, FirstFree(d, stamp, k)) <==>
            exists i: nat :: k <= i <= LAST_SUFFIX && Free(d, Candidate(stamp, i))
    decreases LAST_SUFFIX - k
  {
    if k < LAST_SUFFIX && !Free(d, Candidate(stamp, k)) {
      FirstFreeIsFree(d, stamp, k + 1);
    } else {
      assert Free(d, Candidate(stamp, k)) ==> k <= k <= LAST_SUFFIX;
    }
  }

  // ----- moving the live file away ----------------------------------------------

  datatype GzipOutcome = Compressed | SourceLeft | NotCompressed

  /** A successful rename to an archive name, and what the compression did. Renames
      replace whatever has the name. */
  function Moved(d: Disk, name: string, gzip: GzipOutcome, modTime: int): Disk
    requires d.current.Some?
  {
    var content := d.current.value;
    match gzip
    case Compressed => Disk(None, d.plain - {name}, d.gz[name := Gz(content, modTime)])
    case SourceLeft => Disk(None, d.plain[name := content], d.gz[name := Gz(content, modTime)])
    case NotCompressed => Disk(None, d.plain[name := content], d.gz)
  }

  /** Every archive of the first directory is still in the second. */
  predicate Keeps(d: Disk, d': Disk) {
    && (forall n :: n in d.plain ==> n in d'.plain && d'.plain[n] == d.plain[n])
    && (forall n :: n in d.gz ==> n in d'.gz && d'.gz[n] == d.gz[n])
  }

  /** Moving the live file away loses no archive exactly when its name was unused, or
      used only by a compressed archive while the compression fails. */
  lemma MoveKeepsExactly(d: Disk, name: string, gzip: GzipOutcome, modTime: int)
    requires d.current.Some?
    requires name in d.plain ==> d.plain[name] != d.current.value
    requires name in d.gz ==> d.gz[name].content != d.current.value
    ensures Keeps(d, Moved(d, name, gzip, modTime)) <==>
            name !in d.plain && (name in d.gz ==> gzip.NotCompressed?)
  {
    var d' := Moved(d, name, gzip, modTime);
    if name in d.plain {
      assert !(name in d'.plain && d'.plain[name] == d.plain[name]);
    }
    if name in d.gz && !gzip.NotCompressed? {
      assert d'.gz[name] != d.gz[name];
    }
  }

  /** With the program's choice of name, nothing is lost whenever one of the thousand
      candidates of the second is unused, whatever the compression does. */
  lemma AvailableNameLosesNothing(d: Disk, stamp: string, gzip: GzipOutcome, modTime: int)
    requires d.current.Some? && NameAvailable(d, stamp)
    ensures Keeps(d, Moved(d, FirstFree(d, stamp, 0), gzip, modTime))
  {
    FirstFreeIsFree(d, stamp, 0);
  }

  /** So nothing is lost while the directory has fewer than a thousand archives. */
  lemma FewArchivesLoseNothing(d: Disk, stamp: string, gzip: GzipOutcome, modTime: int)
    requires d.current.Some? && |d.plain.Keys + d.gz.Keys| < 1000
    ensures Keeps(d, Moved(d, FirstFree(d, stamp, 0), gzip, modTime))
  {
    FewArchivesLeaveAName(d, stamp);
    AvailableNameLosesNothing(d, stamp, gzip, modTime);
  }

  /** When all thousand are in use, a rename and compression that succeed always
      lose an archive with other content. */
  lemma ExhaustedNamesLoseAnArchive(d: Disk, stamp: string, modTime: int)
    requires d.current.Some? && !NameAvailable(d, stamp)
    requires forall n :: n in d.plain ==> d.plain[n] != d.current.value
    requires forall n :: n in d.gz ==> d.gz[n].content != d.current.value
    ensures !Keeps(d, Moved(d, FirstFree(d, stamp, 0), Compressed, modTime))
  {
    FirstFreeIsFree(d, stamp, 0);
    MoveKeepsExactly(d, FirstFree(d, stamp, 0), Compressed, modTime);
  }

  // ----- pruning -------------------------------------------------------------------

  ghost predicate OldestFirst(gz: map<string, Gz>, victims: set<string>) {
    victims <= gz.Keys
    && forall v, k :: v in victims && k in gz && k !in victims ==> gz[v].modTime <= gz[k].modTime
  }

  /** What pruning may leave: the excess oldest archives go, except those whose
      removal fails; equal times are broken either way. */
  ghost predicate PrunedTo(gz: map<string, Gz>, gz': map<string, Gz>, keepCount: nat, listWorks: bool,
                           stuck: set<string>) {
    if !listWorks || |gz| <= keepCount then gz' == gz
    else exists victims: set<string> ::
           OldestFirst(gz, victims) && |victims| == |gz| - keepCount && gz' == gz - (victims - stuck)
  }

  ghost predicate SortedNames(gz: map<string, Gz>, order: seq<string>) {
    && (forall i :: 0 <= i < |order| ==> order[i] in gz)
    && (forall i, j :: 0 <= i < j < |order| ==> order[i] != order[j] && gz[order[i]].modTime <= gz[order[j]].modTime)
  }

  function NameSet(names: seq<string>): set<string> { set n | n in names }

  lemma NameSetSnoc(names: seq<string>, n: string)
    ensures NameSet(names + [n]) == NameSet(names) + {n}
  {
    assert (names + [n])[|names|] == n;
  }

  lemma {:induction false} NameSetSize(names: seq<string>)
    requires forall i, j :: 0 <= i < j < |names| ==> names[i] != names[j]
    ensures |NameSet(names)| == |names|
  {
    if names == [] {
    } else {
      var n := |names| - 1;
      NameSetSize(names[..n]);
      assert NameSet(names) == NameSet(names[..n]) + {names[n]};
      assert names[n] !in names[..n];
    }
  }

  method OldestOf(gz: map<string, Gz>, names: set<string>) returns (oldest: string)
    requires names != {} && names <= gz.Keys
    ensures oldest in names && forall n :: n in names ==> gz[oldest].modTime <= gz[n].modTime
  {
    oldest :| oldest in names;
    var todo := names;
    while todo != {}
      invariant todo <= names && oldest in names
      invariant forall n :: n in names && n !in todo ==> gz[oldest].modTime <= gz[n].modTime
      decreases todo
    {
      var n :| n in todo;
      todo := todo - {n};
      if gz[n].modTime < gz[oldest].modTime {
        oldest := n;
      }
    }
  }

  lemma SortedSnoc(gz: map<string, Gz>, order: seq<string>, n: string)
    requires SortedNames(gz, order) && n in gz && n !in order
    requires forall i :: 0 <= i < |order| ==> gz[order[i]].modTime <= gz[n].modTime
    ensures SortedNames(gz, order + [n])
  {
  }

  /** The archives by modification time, oldest first. */
  method SortArchives(gz: map<string, Gz>) returns (order: seq<string>)
    ensures SortedNames(gz, order) && |order| == |gz|
    ensures forall n :: n in order <==> n in gz
  {
    order := [];
    var rest := gz.Keys;
    while rest != {}
      invariant rest <= gz.Keys && |order| == |gz| - |rest|
      invariant forall n :: n in order <==> n in gz && n !in rest
      invariant SortedNames(gz, order)
      invariant forall i, n :: 0 <= i < |order| && n in rest ==> gz[order[i]].modTime <= gz[n].modTime
      decreases rest
    {
      var n := OldestOf(gz, rest);
      SortedSnoc(gz, order, n);
      order := order + [n];
      rest := rest - {n};
    }
  }

  method RemoveFirst(gz: map<string, Gz>, order: seq<string>, excess: nat, stuck: set<string>)
    returns (left: map<string, Gz>)
    requires excess <= |order|
    ensures left == gz - (NameSet(order[..excess]) - stuck)
  {
    left := gz;
    for i := 0 to excess
      invariant left == gz - (NameSet(order[..i]) - stuck)
    {
      assert order[..i + 1] == order[..i] + [order[i]];
      NameSetSnoc(order[..i], order[i]);
      if order[i] !in stuck {
        left := left - {order[i]};
      }
    }
  }

  method PruneOldArchives(gz: map<string, Gz>, keepCount: nat, listWorks: bool, stuck: set<string>)
    returns (left: map<string, Gz>)
    ensures PrunedTo(gz, left, keepCount, listWorks, stuck)
  {
    left := gz;
    if !listWorks || |gz| <= keepCount {
      return;
    }
    var order := SortArchives(gz);
    var excess := |order| - keepCount;
    left := RemoveFirst(gz, order, excess, stuck);
    PrefixIsOldest(gz, order, excess);
  }

  lemma OutsidePrefix(order: seq<string>, n: nat, j: nat)
    requires n <= |order| && j < |order| && order[j] !in NameSet(order[..n])
    ensures n <= j
  {
    assert forall i :: 0 <= i < n ==> order[..n][i] in NameSet(order[..n]);
  }

  lemma PrefixIsOldest(gz: map<string, Gz>, order: seq<string>, n: nat)
    requires SortedNames(gz, order) && n <= |order|
    requires forall k :: k in order <==> k in gz
    ensures OldestFirst(gz, NameSet(order[..n])) && |NameSet(order[..n])| == n
  {
    var victims := NameSet(order[..n]);
    NameSetSize(order[..n]);
    forall v, k | v in victims && k in gz && k !in victims
      ensures gz[v].modTime <= gz[k].modTime
    {
      var i :| 0 <= i < n && order[i] == v;
      assert k in order;
      var j :| 0 <= j < |order| && order[j] == k;
      OutsidePrefix(order, n, j);
    }
  }

  lemma LeftAfterRemoval(gz: map<string, Gz>, victims: set<string>, left: map<string, Gz>)
    requires victims <= gz.Keys && left == gz - victims
    ensures left.Keys == gz.Keys - victims && |left| == |gz| - |victims|
  {
    assert left.Keys == gz.Keys - victims;
    assert gz.Keys == left.Keys + victims;
  }

  ghost predicate DistinctTimes(gz: map<string, Gz>) {
    forall a, b :: a in gz && b in gz && a != b ==> gz[a].modTime != gz[b].modTime
  }

  /** gz' is the newest keepCount of gz, or all when there are fewer. */
  ghost predicate IsNewest(gz: map<string, Gz>, gz': map<string, Gz>, keepCount: nat) {
    && |gz'| == (if |gz| <= keepCount then |gz| else keepCount)
    && (forall k :: k in gz' ==> k in gz && gz'[k] == gz[k])
    && (forall k, r :: k in gz' && r in gz && r !in gz' ==> gz[r].modTime < gz'[k].modTime)
  }

  lemma OldestGone(gz: map<string, Gz>, victims: set<string>, gz': map<string, Gz>)
    requires OldestFirst(gz, victims) && DistinctTimes(gz) && gz' == gz - victims
    ensures forall k, r :: k in gz' && r in gz && r !in gz' ==> gz[r].modTime < gz'[k].modTime
  {
    forall k, r | k in gz' && r in gz && r !in gz'
      ensures gz[r].modTime < gz'[k].modTime
    {
      assert r in victims && k !in victims && k in gz && gz[r].modTime <= gz[k].modTime;
    }
  }

  lemma NewestAfterRemoval(gz: map<string, Gz>, victims: set<string>, gz': map<string, Gz>, keepCount: nat)
    requires OldestFirst(gz, victims) && |victims| == |gz| - keepCount && gz' == gz - victims
    requires DistinctTimes(gz)
    ensures IsNewest(gz, gz', keepCount)
  {
    LeftAfterRemoval(gz, victims, gz');
    OldestGone(gz, victims, gz');
    assert forall k :: k in gz' ==> k in gz && gz'[k] == gz[k];
  }

  lemma AllAreNewest(gz: map<string, Gz>, keepCount: nat)
    requires |gz| <= keepCount
    ensures IsNewest(gz, gz, keepCount)
  {
  }

  lemma NoneStuck(victims: set<string>)
    ensures victims - {} == victims
  {
  }

  /** With distinct times and working removals, exactly the newest keepCount compressed
      archives are left. */
  lemma NewestAreLeft(gz: map<string, Gz>, gz': map<string, Gz>, keepCount: nat)
    requires PrunedTo(gz, gz', keepCount, true, {}) && DistinctTimes(gz)
    ensures IsNewest(gz, gz', keepCount)
  {
    if |gz| <= keepCount {
      AllAreNewest(gz, keepCount);
    } else {
      var victims: set<string> :| OldestFirst(gz, victims) && |victims| == |gz| - keepCount
                                  && gz' == gz - (victims - {});
      NoneStuck(victims);
      NewestAfterRemoval(gz, victims, gz', keepCount);
    }
  }

  // ----- the program's object --------------------------------------------------------

  datatype Archived = Archived(name: string, content: Content)

  /** How the steps of one rotation turn out, with its timestamp and the
      modification time of its archive. */
  datatype Weather = Weather(
    statWorks: bool,
    renameWorks: bool,
    gzip: GzipOutcome,
    listWorks: bool,
    stuck: set<string>,
    reopenWorks: bool,
    stamp: string,
    modTime: int)

  function Chunks(rotated: seq<Archived>): Content {
    if rotated == [] then [] else Chunks(rotated[..|rotated| - 1]) + rotated[|rotated| - 1].content
  }

  predicate OnDisk(plain: map<string, Content>, gz: map<string, Gz>, a: Archived) {
    || (a.name in plain && plain[a.name] == a.content)
    || (a.name in gz && gz[a.name].content == a.content)
  }

  /** No byte is lost and no write is split: the rotated contents in order and the
      live file are, block by block, what was there and what was written. */
  ghost predicate Conserved(initial: Content, written: Content, rotated: seq<Archived>, d: Disk) {
    Chunks(rotated) + Live(d) == initial + written
  }

  /** The same read as one stream of bytes. */
  lemma ConservedBytes(initial: Content, written: Content, rotated: seq<Archived>, d: Disk)
    requires Conserved(initial, written, rotated, d)
    ensures Bytes(Chunks(rotated)) + Bytes(Live(d)) == Bytes(initial) + Bytes(written)
  {
    BytesAppend(Chunks(rotated), Live(d));
    BytesAppend(initial, written);
  }

  /** Every rotated content that was not pruned is on disk under its name. */
  ghost predicate Traceable(plain: map<string, Content>, gz: map<string, Gz>, rotated: seq<Archived>,
                            pruned: set<nat>) {
    && (forall i :: 0 <= i < |rotated| && i !in pruned ==> OnDisk(plain, gz, rotated[i]))
    && (forall i, j :: 0 <= i < j < |rotated| && i !in pruned && j !in pruned ==> rotated[i].name != rotated[j].name)
  }

  /** An archive whose compressed copy the pruning took, with no other copy left. */
  predicate Gone(a: Archived, moved: Disk, d: Disk) {
    a.name in moved.gz && a.name !in d.gz && !(a.name in d.plain && d.plain[a.name] == a.content)
  }

  function Forgotten(rotated: seq<Archived>, pruned: set<nat>, moved: Disk, d: Disk): set<nat> {
    pruned + set i: nat | i < |rotated| && Gone(rotated[i], moved, d)
  }

  lemma MoveStaysTraceable(was: seq<Archived>, pruned: set<nat>, a: Archived, before: Disk, gzip: GzipOutcome,
                           modTime: int)
    requires before.current == Some(a.content) && Free(before, a.name)
    requires Traceable(before.plain, before.gz, was, pruned)
    ensures var moved := Moved(before, a.name, gzip, modTime);
            Traceable(moved.plain, moved.gz, was + [a], pruned)
  {
    var moved := Moved(before, a.name, gzip, modTime);
    forall i | 0 <= i < |was| && i !in pruned
      ensures OnDisk(moved.plain, moved.gz, was[i]) && was[i].name != a.name
    {
      assert OnDisk(before.plain, before.gz, was[i]);
    }
  }

  lemma PruneStaysTraceable(now: seq<Archived>, pruned: set<nat>, moved: Disk, d: Disk)
    requires Traceable(moved.plain, moved.gz, now, pruned)
    requires d.plain == moved.plain
    requires forall n :: n in d.gz ==> n in moved.gz && d.gz[n] == moved.gz[n]
    ensures Traceable(d.plain, d.gz, now, Forgotten(now, pruned, moved, d))
  {
    var gone := Forgotten(now, pruned, moved, d);
    forall i | 0 <= i < |now| && i !in gone
      ensures OnDisk(d.plain, d.gz, now[i])
    {
      assert OnDisk(moved.plain, moved.gz, now[i]) && !Gone(now[i], moved, d);
    }
  }

  lemma PrunedIsPart(gz: map<string, Gz>, gz': map<string, Gz>, keepCount: nat, listWorks: bool, stuck: set<string>)
    requires PrunedTo(gz, gz', keepCount, listWorks, stuck)
    ensures forall n :: n in gz' ==> n in gz && gz'[n] == gz[n]
  {
  }

  /** The compressed archives right after the live file was moved to its archive name. */
  function GzAfterMove(d: Disk, w: Weather): map<string, Gz>
    requires d.current.Some?
  {
    Moved(d, FirstFree(d, w.stamp, 0), w.gzip, w.modTime).gz
  }

  /** The pruning that ends a rotation of d. */
  ghost predicate PrunedAfterMove(d: Disk, gz: map<string, Gz>, keepCount: nat, w: Weather) {
    d.current.Some? && PrunedTo(GzAfterMove(d, w), gz, keepCount, w.listWorks, w.stuck)
  }

  /** What one archiving attempt does to the directory and the ledger. */
  ghost predicate ArchiveStep(d: Disk, rotated: seq<Archived>, pruned: set<nat>, keepCount: nat, w: Weather,
                              d': Disk, rotated': seq<Archived>, pruned': set<nat>) {
    if d.current.None? || !w.statWorks || !w.renameWorks then d' == d && rotated' == rotated && pruned' == pruned
    else
      var name := FirstFree(d, w.stamp, 0);
      var moved := Moved(d, name, w.gzip, w.modTime);
      && d'.current.None? && d'.plain == moved.plain
      && PrunedTo(moved.gz, d'.gz, keepCount, w.listWorks, w.stuck)
      && rotated' == rotated + [Archived(name, d.current.value)]
      && pruned' == Forgotten(rotated', pruned, moved, d')
  }

  lemma ArchiveConserves(initial: Content, written: Content, d: Disk, rotated: seq<Archived>, pruned: set<nat>,
                         keepCount: nat, w: Weather, d': Disk, rotated': seq<Archived>, pruned': set<nat>)
    requires ArchiveStep(d, rotated, pruned, keepCount, w, d', rotated', pruned')
    requires Conserved(initial, written, rotated, d)
    ensures Conserved(initial, written, rotated', d')
  {
    if rotated' != rotated {
      assert rotated'[..|rotated'| - 1] == rotated;
      assert Live(d') == [];
    }
  }

  lemma ArchiveStaysTraceable(d: Disk, rotated: seq<Archived>, pruned: set<nat>, keepCount: nat, w: Weather,
                              d': Disk, rotated': seq<Archived>, pruned': set<nat>)
    requires ArchiveStep(d, rotated, pruned, keepCount, w, d', rotated', pruned')
    requires Traceable(d.plain, d.gz, rotated, pruned) && NameAvailable(d, w.stamp)
    ensures Traceable(d'.plain, d'.gz, rotated', pruned')
  {
    if d.current.Some? && w.statWorks && w.renameWorks {
      var name := FirstFree(d, w.stamp, 0);
      var moved := Moved(d, name, w.gzip, w.modTime);
      FirstFreeIsFree(d, w.stamp, 0);
      MoveStaysTraceable(rotated, pruned, Archived(name, d.current.value), d, w.gzip, w.modTime);
      PrunedIsPart(moved.gz, d'.gz, keepCount, w.listWorks, w.stuck);
      PruneStaysTraceable(rotated', pruned, moved, d');
    }
  }

  /** The size bound: within the limit, or exactly the one write. */
  predicate Bounded(d: Disk, maxBytes: nat, p: string) {
    Length(Live(d)) <= maxBytes || Bytes(Live(d)) == p
  }

  class RotatingFile {
    const maxBytes: nat
    const keepCount: nat
    var disk: Disk
    var isOpen: bool
    var size: int
    var disabled: bool

    /** What was there at first, every block written since, every content rotated
        away, and which of those were pruned. */
    ghost const initial: Content
    ghost var written: Content
    ghost var rotated: seq<Archived>
    ghost var pruned: set<nat>
    /** What the live file held when it was last reopened although it could not be
        archived; the tracked size leaves it out. */
    ghost var untracked: nat

    ghost predicate Valid()
      reads this
    {
      && Conserved(initial, written, rotated, disk)
      && (isOpen ==> disk.current.Some? && Length(disk.current.value) == untracked + size && size >= 0)
      && (!isOpen ==> disabled)
    }

    constructor (existing: Disk, maxBytes: int, keepCount: int, rotateOnOpen: bool, w: Weather)
      ensures Valid() && initial == Live(existing) && written == []
      ensures this.maxBytes == (if maxBytes < 0 then 0 else maxBytes)
      ensures this.keepCount == (if keepCount < 0 then 0 else keepCount)
      ensures isOpen <==> w.reopenWorks
      ensures isOpen ==> untracked == 0 && !disabled
      ensures rotateOnOpen && Length(Live(existing)) > 0 && w.statWorks && w.renameWorks ==>
                rotated == [Archived(FirstFree(existing, w.stamp, 0), Live(existing))] && Live(disk) == []
      ensures !rotateOnOpen || Length(Live(existing)) == 0 ==> rotated == [] && Live(disk) == Live(existing)
      ensures NameAvailable(existing, w.stamp) ==> Traceable(disk.plain, disk.gz, rotated, pruned)
    {
      this.maxBytes := if maxBytes < 0 then 0 else maxBytes;
      this.keepCount := if keepCount < 0 then 0 else keepCount;
      disk := existing;
      initial := Live(existing);
      written, rotated, pruned, untracked := [], [], {}, 0;
      isOpen, size, disabled := false, 0, true;
      new;
      assert [] + Live(disk) == initial + [];
      Start(rotateOnOpen, w);
    }

    /** Existing content is archived when asked to. */
    method ArchiveExisting(rotateOnOpen: bool, w: Weather)
      requires Conserved(initial, written, rotated, disk)
      requires rotated == [] && pruned == {}
      modifies this`disk, this`rotated, this`pruned
      ensures Conserved(initial, written, rotated, disk)
      ensures if rotateOnOpen && Length(Live(old(disk))) > 0 && w.statWorks && w.renameWorks
              then rotated == [Archived(FirstFree(old(disk), w.stamp, 0), Live(old(disk)))] && Live(disk) == []
              else rotated == [] && Live(disk) == Live(old(disk))
      ensures NameAvailable(old(disk), w.stamp) ==> Traceable(disk.plain, disk.gz, rotated, pruned)
    {
      if rotateOnOpen && Length(Live(disk)) > 0 {
        Archive(w);
      }
    }

    method Start(rotateOnOpen: bool, w: Weather)
      requires Conserved(initial, written, rotated, disk)
      requires rotated == [] && pruned == {} && untracked == 0 && !isOpen && disabled
      modifies this`disk, this`isOpen, this`size, this`disabled, this`rotated, this`pruned
      ensures Valid()
      ensures isOpen <==> w.reopenWorks
      ensures isOpen ==> !disabled
      ensures rotateOnOpen && Length(Live(old(disk))) > 0 && w.statWorks && w.renameWorks ==>
                rotated == [Archived(FirstFree(old(disk), w.stamp, 0), Live(old(disk)))] && Live(disk) == []
      ensures !rotateOnOpen || Length(Live(old(disk))) == 0 ==> rotated == [] && Live(disk) == Live(old(disk))
      ensures NameAvailable(old(disk), w.stamp) ==> Traceable(disk.plain, disk.gz, rotated, pruned)
    {
      ArchiveExisting(rotateOnOpen, w);
      if w.reopenWorks {
        Reopen();
        disabled := false;
        size := Length(disk.current.value);
      }
    }

    /** O_APPEND|O_CREATE */
    method Reopen()
      requires Conserved(initial, written, rotated, disk)
      modifies this`disk, this`isOpen
      ensures Conserved(initial, written, rotated, disk)
      ensures isOpen && disk == old(disk).(current := Some(Live(old(disk))))
    {
      if disk.current.None? {
        disk := disk.(current := Some([]));
      }
      isOpen := true;
    }

    /** Rename, compress, prune. Nothing changes when the rename does not happen. */
    method ArchiveCurrent(w: Weather) returns (done: bool)
      modifies this`disk, this`rotated, this`pruned
      ensures ArchiveStep(old(disk), old(rotated), old(pruned), keepCount, w, disk, rotated, pruned)
      ensures done <==> w.statWorks && (old(disk).current.None? || w.renameWorks)
    {
      if !w.statWorks {
        return false;
      }
      if disk.current.None? {
        return true;
      }
      var name := UniqueArchivePath(disk, w.stamp);
      if !w.renameWorks {
        return false;
      }
      rotated := rotated + [Archived(name, disk.current.value)];
      var moved := Moved(disk, name, w.gzip, w.modTime);
      var left := PruneOldArchives(moved.gz, keepCount, w.listWorks, w.stuck);
      disk := Disk(None, moved.plain, left);
      pruned := Forgotten(rotated, pruned, moved, disk);
      return true;
    }

    /** The same attempt, with what it means for the ledger. */
    method Archive(w: Weather)
      requires Conserved(initial, written, rotated, disk)
      modifies this`disk, this`rotated, this`pruned
      ensures Conserved(initial, written, rotated, disk)
      ensures old(disk).current.Some? && w.statWorks && w.renameWorks ==>
                && rotated == old(rotated) + [Archived(FirstFree(old(disk), w.stamp, 0), Live(old(disk)))]
                && Live(disk) == [] && PrunedAfterMove(old(disk), disk.gz, keepCount, w)
      ensures !(old(disk).current.Some? && w.statWorks && w.renameWorks) ==>
                rotated == old(rotated) && disk == old(disk) && pruned == old(pruned)
      ensures Traceable(old(disk).plain, old(disk).gz, old(rotated), old(pruned))
              && NameAvailable(old(disk), w.stamp) ==>
                Traceable(disk.plain, disk.gz, rotated, pruned)
    {
      var done := ArchiveCurrent(w);
      ArchiveConserves(initial, written, old(disk), old(rotated), old(pruned), keepCount, w, disk, rotated, pruned);
      if Traceable(old(disk).plain, old(disk).gz, old(rotated), old(pruned)) && NameAvailable(old(disk), w.stamp) {
        ArchiveStaysTraceable(old(disk), old(rotated), old(pruned), keepCount, w, disk, rotated, pruned);
      }
    }

    method Rotate(w: Weather)
      requires Valid() && isOpen
      modifies this`disk, this`rotated, this`pruned, this`isOpen, this`size, this`disabled, this`untracked
      ensures Valid()
      ensures disabled <==> old(disabled) || !w.reopenWorks
      ensures isOpen <==> w.reopenWorks
      ensures isOpen ==> size == 0
      ensures w.statWorks && w.renameWorks ==>
                && rotated == old(rotated) + [Archived(FirstFree(old(disk), w.stamp, 0), Live(old(disk)))]
                && Live(disk) == [] && (isOpen ==> untracked == 0)
                && PrunedAfterMove(old(disk), disk.gz, keepCount, w)
      ensures !(w.statWorks && w.renameWorks) ==>
                && rotated == old(rotated) && Live(disk) == Live(old(disk))
                && (isOpen ==> untracked == Length(Live(old(disk))))
      ensures Traceable(old(disk).plain, old(disk).gz, old(rotated), old(pruned))
              && NameAvailable(old(disk), w.stamp) ==>
                Traceable(disk.plain, disk.gz, rotated, pruned)
    {
      isOpen := false;
      Archive(w);
      if !w.reopenWorks {
        disabled := true;
        return;
      }
      Reopen();
      size := 0;
      untracked := Length(disk.current.value);
    }

    /** Whether a write of so many bytes rotates first. */
    predicate MustRotate(n: nat)
      reads this
    {
      maxBytes > 0 && size + n > maxBytes && size > 0
    }

    /** Rotates first when the write would pass the limit. */
    method MakeRoom(n: nat, w: Weather)
      requires Valid() && isOpen && !disabled
      modifies this`disk, this`rotated, this`pruned, this`isOpen, this`size, this`disabled, this`untracked
      ensures Valid()
      ensures disabled <==> !isOpen
      ensures old(MustRotate(n)) ==> (isOpen <==> w.reopenWorks) && (isOpen ==> size == 0)
      ensures !old(MustRotate(n)) ==>
                && rotated == old(rotated) && disk == old(disk) && isOpen
                && size == old(size) && untracked == old(untracked) && pruned == old(pruned)
      ensures old(MustRotate(n)) && w.statWorks && w.renameWorks ==>
                && rotated == old(rotated) + [Archived(FirstFree(old(disk), w.stamp, 0), Live(old(disk)))]
                && PrunedAfterMove(old(disk), disk.gz, keepCount, w) && (isOpen ==> untracked == 0)
      ensures old(MustRotate(n)) && !(w.statWorks && w.renameWorks) ==>
                && rotated == old(rotated) && Live(disk) == Live(old(disk))
                && (isOpen ==> untracked == Length(Live(old(disk))))
      ensures Traceable(old(disk).plain, old(disk).gz, old(rotated), old(pruned))
              && NameAvailable(old(disk), w.stamp) ==>
                Traceable(disk.plain, disk.gz, rotated, pruned)
    {
      if maxBytes > 0 && size + n > maxBytes && size > 0 {
        Rotate(w);
      }
    }

    /** One write: n bytes of p reach the file, all of them unless the write fails. After
        a write that had to rotate, the size bound holds exactly when the archiving
        worked; after another, exactly when the size tracks the file or the file still
        fits. */
    method Write(p: string, w: Weather, fails: bool, accepted: nat) returns (n: nat, failed: bool)
      requires Valid() && accepted <= |p|
      modifies this
      ensures Valid()
      ensures old(MustRotate(|p|)) <==> 0 < maxBytes < old(size) + |p| && 0 < old(size)
      ensures n <= |p| && (written == old(written) || written == old(written) + [p[..n]])
      ensures !failed ==> n == |p| && written == old(written) + [p] && isOpen
      ensures failed <==> disabled
      ensures !failed <==> old(isOpen && !disabled) && (old(MustRotate(|p|)) ==> w.reopenWorks) && !fails
      ensures rotated != old(rotated) ==>
                && old(MustRotate(|p|))
                && rotated == old(rotated) + [Archived(FirstFree(old(disk), w.stamp, 0), Live(old(disk)))]
                && PrunedAfterMove(old(disk), disk.gz, keepCount, w)
      ensures !failed && old(MustRotate(|p|)) ==> (rotated != old(rotated) <==> w.statWorks && w.renameWorks)
      ensures isOpen && (!old(MustRotate(|p|)) || old(disabled)) ==> untracked == old(untracked)
      ensures isOpen && rotated != old(rotated) ==> untracked == 0
      ensures !failed && old(MustRotate(|p|)) && !(w.statWorks && w.renameWorks) ==>
                untracked == Length(Live(old(disk)))
      ensures !failed && maxBytes > 0 ==> size <= maxBytes || size == |p|
      ensures !failed && maxBytes > 0 ==>
                (Bounded(disk, maxBytes, p) <==> untracked == 0 || untracked + size <= maxBytes)
      ensures !failed && old(MustRotate(|p|)) ==> (Bounded(disk, maxBytes, p) <==> w.statWorks && w.renameWorks)
      ensures !failed && maxBytes > 0 && !old(MustRotate(|p|)) ==>
                (Bounded(disk, maxBytes, p) <==> old(untracked) == 0 || Length(Live(old(disk))) + |p| <= maxBytes)
      ensures Traceable(old(disk).plain, old(disk).gz, old(rotated), old(pruned))
              && NameAvailable(old(disk), w.stamp) ==>
                Traceable(disk.plain, disk.gz, rotated, pruned)
    {
      if disabled || !isOpen {
        disabled := true;
        return 0, true;
      }
      MakeRoom(|p|, w);
      if disabled || !isOpen {
        return 0, true;
      }
      n := if fails then accepted else |p|;
      AppendBlock(p[..n]);
      assert !fails ==> p[..n] == p;
      LengthCountsBytes(Live(disk));
      if fails {
        disabled := true;
      }
      return n, fails;
    }

    method AppendBlock(block: string)
      requires Valid() && isOpen
      modifies this`disk, this`size, this`written
      ensures Valid() && written == old(written) + [block] && size == old(size) + |block|
      ensures disk == old(disk).(current := Some(Live(old(disk)) + [block]))
      ensures Length(Live(disk)) == untracked + size
      ensures old(size) == 0 && untracked == 0 ==> Bytes(Live(disk)) == block
      ensures Traceable(old(disk).plain, old(disk).gz, rotated, pruned) ==>
                Traceable(disk.plain, disk.gz, rotated, pruned)
    {
      var before := disk.current.value;
      disk := disk.(current := Some(before + [block]));
      LengthSnoc(before, block);
      LengthCountsBytes(before);
      assert Chunks(rotated) + (before + [block]) == (Chunks(rotated) + before) + [block];
      written := written + [block];
      assert (initial + old(written)) + [block] == initial + written;
      size := size + |block|;
    }
  }

  /** A rotating write leaves exactly the newest keepCount compressed archives, counting
      the one it made, when the times are distinct and the removals work. */
  method WriteKeepsTheNewest(file: RotatingFile, p: string, w: Weather) returns (failed: bool)
    requires file.Valid() && w.listWorks && w.stuck == {}
    requires file.disk.current.Some? && DistinctTimes(GzAfterMove(file.disk, w))
    modifies file
    ensures file.Valid()
    ensures file.rotated != old(file.rotated) ==> IsNewest(GzAfterMove(old(file.disk), w), file.disk.gz, file.keepCount)
  {
    ghost var gz := GzAfterMove(file.disk, w);
    var _, f := file.Write(p, w, false, 0);
    failed := f;
    if PrunedTo(gz, file.disk.gz, file.keepCount, true, {}) {
      NewestAreLeft(gz, file.disk.gz, file.keepCount);
    }
  }

  /** A failed archive breaks the size bound: for every limit and any two writes that
      together pass it, with a rename that fails before the second, both end up in the
      live file. */
  method FailedArchiveBreaksTheBound(maxBytes: nat, p: string, q: string, calm: Weather, w: Weather)
    returns (file: RotatingFile)
    requires 0 < |p| && 0 < maxBytes < |p| + |q|
    requires calm.reopenWorks && w.statWorks && !w.renameWorks && w.reopenWorks
    ensures file.Valid() && file.maxBytes == maxBytes && file.written == [p, q]
    ensures Bytes(Live(file.disk)) == p + q && !Bounded(file.disk, maxBytes, q)
  {
    file := new RotatingFile(Disk(None, map[], map[]), maxBytes, 0, false, calm);
    BytesOfTwo(p, q);
    assert file.isOpen && !file.disabled && file.size == 0 && !file.MustRotate(|p|);
    var _, failed := file.Write(p, calm, false, 0);
    assert !failed && file.rotated == [] && file.untracked == 0 && file.written == [] + [p];
    LiveIsWritten(file.written, file.disk);
    assert file.size == |p| && file.isOpen && !file.disabled && file.MustRotate(|q|);
    var _, again := file.Write(q, w, false, 0);
    assert !again && file.rotated == [] && file.untracked == |p| && file.written == [p] + [q];
    LiveIsWritten(file.written, file.disk);
  }

  lemma LiveIsWritten(written: Content, d: Disk)
    requires Conserved([], written, [], d)
    ensures Live(d) == written
  {
    assert [] + Live(d) == Live(d) && [] + written == written;
  }

  lemma BytesOfTwo(p: string, q: string)
    ensures Bytes([p, q]) == p + q && Length([p]) == |p| && [p] + [q] == [p, q] && [] + [p] == [p]
  {
    LengthSnoc([p], q);
    LengthSnoc([], p);
    assert [p] + [q] == [p, q] && [] + [p] == [p];
  }
}
