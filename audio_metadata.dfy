/** The records kept in `audio_metadata.json`: how they are read back, listed, sorted and named
    for download, and the ordering invariant of the unmerged list. */
module AudioMetadata {
  import opened Wrappers
  import opened Seqs
  import PyText

  /** The two storage directories (`UPLOAD_FOLDER`, `PROCESSED_FOLDER`), named relative to the
      backend's own directory. */
  const UploadFolder: string := "uploads"
  const ProcessedFolder: string := "processed"

  /** The keys only a merge output carries: the ids it was merged from and the gain requested. */
  datatype Provenance = Provenance(mergedFrom: seq<string>, normalizeVolume: bool, normalizeTargetDb: Option<real>)

  /** One metadata record. Keys that some records lack are `Option`s: `order` (merge outputs have
      none), `merged` (a hand-edited record may lack it), `hash` (added on load when missing) and
      the merge provenance. Durations are seconds. */
  datatype Item = Item(
    id: string,
    originalName: string,
    displayName: string,
    filename: string,
    path: string,
    order: Option<int>,
    duration: real,
    merged: Option<bool>,
    hash: Option<string>,
    provenance: Option<Provenance>)

  /** `item.get('merged', False)` */
  predicate IsMerged(x: Item) {
    x.merged.GetOr(false)
  }

  /** `not item.get('merged', False)`: an uploaded file still waiting to be merged. */
  predicate IsUnmerged(x: Item) {
    !x.merged.GetOr(false)
  }

  /** `item.get('order', 0)`, the sort key of the listings. */
  function OrderKey(x: Item): int {
    x.order.GetOr(0)
  }

  /** The predicate "has this id". */
  function HasId(id: string): Item -> bool {
    (x: Item) => x.id == id
  }

  /** The predicate "is unmerged and has this id", the match of the upload-side handlers. */
  function UnmergedWithId(id: string): Item -> bool {
    (x: Item) => x.id == id && IsUnmerged(x)
  }

  /** What the metadata file can hold when it is read: no file, an empty file, text that is
      not a JSON list of records, or a list of records. */
  datatype MetadataFile = Missing | EmptyText | Unreadable | Json(records: seq<Item>)

  /** The load-time fill-in: a record without a `hash` key gets an empty one. */
  function WithHash(x: Item): Item {
    if x.hash.Some? then x else x.(hash := Some(""))
  }

  /** `load_metadata()`: every failure to read yields the empty list; otherwise the stored
      records, each of which now has a `hash`, and nothing else about them changed. */
  function Load(f: MetadataFile): (r: seq<Item>)
    ensures !f.Json? ==> r == []
    ensures f.Json? ==> |r| == |f.records|
    ensures forall i :: 0 <= i < |r| ==> r[i].hash.Some?
    ensures f.Json? ==> forall i :: 0 <= i < |r| ==>
      && r[i] == f.records[i].(hash := r[i].hash)
      && (f.records[i].hash.Some? ==> r[i].hash == f.records[i].hash)
      && (f.records[i].hash.None? ==> r[i].hash == Some(""))
  {
    if f.Json? then seq(|f.records|, i requires 0 <= i < |f.records| => WithHash(f.records[i])) else []
  }

  /** Saving what was loaded and loading it again gives the same records. */
  lemma {:induction false} LoadSaved(f: MetadataFile)
    ensures Load(Json(Load(f))) == Load(f)
  {
    var r := Load(f);
    var r2 := Load(Json(r));
    assert |r2| == |r|;
    forall i | 0 <= i < |r| ensures r2[i] == r[i] {
    }
  }

  /** Every record has `hash` once loaded. */
  predicate AllHashed(m: seq<Item>) {
    forall i :: 0 <= i < |m| ==> m[i].hash.Some?
  }

  /** Loading leaves a list in which every record has `hash` unchanged. */
  lemma {:induction false} LoadHashed(m: seq<Item>)
    requires AllHashed(m)
    ensures Load(Json(m)) == m
  {
    var r := Load(Json(m));
    forall i | 0 <= i < |m| ensures r[i] == m[i] {
      assert r[i] == m[i].(hash := r[i].hash);
    }
  }

  // ----- sorting by `order` -----

  predicate SortedByOrder(s: seq<Item>) {
    forall i, j :: 0 <= i < j < |s| ==> OrderKey(s[i]) <= OrderKey(s[j])
  }

  /** Inserts `x` into a sorted list after every element whose key is not larger. */
  function InsertByOrder(t: seq<Item>, x: Item): (r: seq<Item>)
    requires SortedByOrder(t)
    ensures SortedByOrder(r)
    ensures multiset(r) == multiset(t) + multiset{x}
    ensures |r| == |t| + 1
  {
    if t == [] || OrderKey(t[|t| - 1]) <= OrderKey(x) then t + [x]
    else
      var last := t[|t| - 1];
      var r := InsertByOrder(t[..|t| - 1], x) + [last];
      assert t == t[..|t| - 1] + [last];
      assert forall i :: 0 <= i < |r| - 1 ==> OrderKey(r[i]) <= OrderKey(last) by {
        forall i | 0 <= i < |r| - 1 ensures OrderKey(r[i]) <= OrderKey(last) {
          var y := r[i];
          assert y in multiset(InsertByOrder(t[..|t| - 1], x));
          if y != x {
            assert y in multiset(t[..|t| - 1]);
            var j :| 0 <= j < |t| - 1 && t[j] == y;
          }
        }
      }
      r
  }

  /** `list.sort(key=lambda x: x.get('order', 0))`: Python's sort is stable, so this is an
      insertion sort that keeps equal keys in their input order. */
  function SortByOrder(s: seq<Item>): (r: seq<Item>)
    ensures SortedByOrder(r)
    ensures multiset(r) == multiset(s)
    ensures |r| == |s|
  {
    if s == [] then []
    else
      assert s == s[..|s| - 1] + [s[|s| - 1]];
      InsertByOrder(SortByOrder(s[..|s| - 1]), s[|s| - 1])
  }

  /** The predicate "has sort key k". */
  function KeyIs(k: int): Item -> bool {
    (x: Item) => OrderKey(x) == k
  }

  lemma {:induction false} InsertStable(t: seq<Item>, x: Item, k: int)
    requires SortedByOrder(t)
    ensures Filter(KeyIs(k), InsertByOrder(t, x)) == Filter(KeyIs(k), t) + Filter(KeyIs(k), [x])
  {
    if t == [] || OrderKey(t[|t| - 1]) <= OrderKey(x) {
      FilterAppend(KeyIs(k), t, [x]);
    } else {
      var init, last := t[..|t| - 1], t[|t| - 1];
      assert t == init + [last];
      InsertStable(init, x, k);
      FilterAppend(KeyIs(k), InsertByOrder(init, x), [last]);
      FilterAppend(KeyIs(k), init, [last]);
    }
  }

  /** The sort is stable: the records of any one key come out in their input order. Together
      with sortedness and the permutation this pins the sorted list down completely. */
  lemma {:induction false} SortStable(s: seq<Item>, k: int)
    ensures Filter(KeyIs(k), SortByOrder(s)) == Filter(KeyIs(k), s)
  {
    if s != [] {
      var init, last := s[..|s| - 1], s[|s| - 1];
      assert s == init + [last];
      SortStable(init, k);
      InsertStable(SortByOrder(init), last, k);
      FilterAppend(KeyIs(k), init, [last]);
    }
  }

  // ----- listings -----

  /** `get_audio_files()` on loaded records: the unmerged records, sorted by `order`. */
  function ListAudio(m: seq<Item>): seq<Item> {
    SortByOrder(Filter(IsUnmerged, m))
  }

  /** `get_processed_files()` on loaded records: the merged records, in stored order. */
  function ListProcessed(m: seq<Item>): seq<Item> {
    Filter(IsMerged, m)
  }

  /** The audio listing holds exactly the unmerged records, as often as they are stored,
      sorted by `order`, with records of equal `order` in stored order. */
  lemma {:induction false} ListAudioSpec(m: seq<Item>)
    ensures var r := ListAudio(m);
      && SortedByOrder(r)
      && multiset(r) == multiset(Filter(IsUnmerged, m))
      && (forall x :: x in r <==> x in m && IsUnmerged(x))
      && (forall k :: Filter(KeyIs(k), r) == Filter(KeyIs(k), Filter(IsUnmerged, m)))
  {
    var r := ListAudio(m);
    var u := Filter(IsUnmerged, m);
    forall k ensures Filter(KeyIs(k), r) == Filter(KeyIs(k), u) {
      SortStable(u, k);
    }
    ListAudioMembers(m);
  }

  /** The audio listing holds the unmerged records and nothing else. */
  lemma {:induction false} ListAudioMembers(m: seq<Item>)
    ensures forall x :: x in ListAudio(m) <==> x in m && IsUnmerged(x)
  {
    var r, u := ListAudio(m), Filter(IsUnmerged, m);
    FilterMembers(IsUnmerged, m);
    forall x ensures x in r <==> x in m && IsUnmerged(x) {
      assert x in r <==> x in multiset(r);
      assert x in u <==> x in multiset(u);
    }
  }

  /** Every record is in exactly one of the two listings. */
  lemma {:induction false} ListingsPartition(m: seq<Item>)
    ensures |ListAudio(m)| + |ListProcessed(m)| == |m|
    ensures forall x :: x in ListProcessed(m) <==> x in m && !IsUnmerged(x)
  {
    PartitionCount(m);
    FilterMembers(IsMerged, m);
  }

  lemma {:induction false} PartitionCount(m: seq<Item>)
    ensures |Filter(IsUnmerged, m)| + |Filter(IsMerged, m)| == |m|
  {
    if m != [] {
      PartitionCount(m[1..]);
    }
  }

  /** The number of unmerged records; new uploads are numbered after it. */
  function UnmergedCount(m: seq<Item>): nat {
    |Filter(IsUnmerged, m)|
  }

  // ----- facts used by the handlers' proofs -----

  /** Two lists of the same length whose records agree on their kind, and agree completely where
      they are merged, list the same merged records. */
  lemma {:induction false} SameMergedRecords(a: seq<Item>, b: seq<Item>)
    requires |a| == |b|
    requires forall i :: 0 <= i < |a| ==> IsMerged(a[i]) == IsMerged(b[i])
    requires forall i :: 0 <= i < |a| && IsMerged(a[i]) ==> a[i] == b[i]
    ensures Filter(IsMerged, a) == Filter(IsMerged, b)
  {
    if a != [] {
      SameMergedRecords(a[1..], b[1..]);
    }
  }

  /** Likewise, two lists whose records agree on kind have as many unmerged records. */
  lemma {:induction false} SameUnmergedCount(a: seq<Item>, b: seq<Item>)
    requires |a| == |b|
    requires forall i :: 0 <= i < |a| ==> IsUnmerged(a[i]) == IsUnmerged(b[i])
    ensures UnmergedCount(a) == UnmergedCount(b)
  {
    if a != [] {
      SameUnmergedCount(a[1..], b[1..]);
    }
  }

  /** Where a filtered element came from: the `i`-th kept record is a record of `m` with `i` kept
      records before it. */
  lemma {:induction false} FilterPositions(p: Item -> bool, m: seq<Item>, i: nat)
    requires i < |Filter(p, m)|
    ensures exists j :: 0 <= j < |m| && Filter(p, m)[i] == m[j] && |Filter(p, m[..j])| == i
  {
    var r, rest := Filter(p, m), Filter(p, m[1..]);
    if p(m[0]) && i == 0 {
      assert m[..0] == [];
      assert r[0] == m[0];
    } else {
      var i' := if p(m[0]) then i - 1 else i;
      assert r[i] == rest[i'];
      FilterPositions(p, m[1..], i');
      var j :| 0 <= j < |m[1..]| && rest[i'] == m[1..][j] && |Filter(p, m[1..][..j])| == i';
      FilterConsPrefix(p, m, j);
      assert r[i] == m[j + 1];
    }
  }

  /** Counting in a prefix of length `j + 1` counts the first element and then `j` more. */
  lemma {:induction false} FilterConsPrefix(p: Item -> bool, m: seq<Item>, j: nat)
    requires j < |m|
    ensures |Filter(p, m[..j + 1])| == (if p(m[0]) then 1 else 0) + |Filter(p, m[1..][..j])|
  {
    assert m[..j + 1][1..] == m[1..][..j];
  }

  /** A longer prefix keeps at least as many elements. */
  lemma {:induction false} PrefixCountMonotone(p: Item -> bool, m: seq<Item>, i: nat, j: nat)
    requires i <= j <= |m|
    ensures |Filter(p, m[..i])| <= |Filter(p, m[..j])|
  {
    assert m[..j] == m[..i] + m[i..j];
    FilterAppend(p, m[..i], m[i..j]);
  }

  /** A sorted list is its own sorted version. */
  lemma {:induction false} SortSorted(s: seq<Item>)
    requires SortedByOrder(s)
    ensures SortByOrder(s) == s
  {
    if s != [] {
      var init := s[..|s| - 1];
      SortSorted(init);
      assert s == init + [s[|s| - 1]];
    }
  }

  // ----- the ordering invariant -----

  /** The unmerged records carry the orders 1..n, each once, where n is their number. */
  predicate DenseOrders(m: seq<Item>) {
    && (forall i :: 0 <= i < |m| && IsUnmerged(m[i]) ==>
          m[i].order.Some? && 1 <= m[i].order.value <= UnmergedCount(m))
    && (forall i, j :: 0 <= i < j < |m| && IsUnmerged(m[i]) && IsUnmerged(m[j]) ==>
          m[i].order != m[j].order)
  }

  /** No two records share an id. */
  predicate UniqueIds(m: seq<Item>) {
    forall i, j :: 0 <= i < j < |m| ==> m[i].id != m[j].id
  }

  /** `{item['id'] for item in metadata if not item.get('merged', False)}` */
  function UnmergedIds(m: seq<Item>): set<string> {
    set i | 0 <= i < |m| && IsUnmerged(m[i]) :: m[i].id
  }

  /** An element at two positions is counted at least twice. */
  lemma {:induction false} CountTwo(s: seq<Item>, p: nat, q: nat)
    requires p < q < |s| && s[p] == s[q]
    ensures multiset(s)[s[p]] >= 2
  {
    assert s == s[..p] + [s[p]] + s[p + 1..q] + [s[q]] + s[q + 1..];
  }

  /** An element counted at least twice sits at two positions. */
  lemma {:induction false} TwoPositions(s: seq<Item>, x: Item)
    requires multiset(s)[x] >= 2
    ensures exists i, j :: 0 <= i < j < |s| && s[i] == x && s[j] == x
  {
    assert s == [s[0]] + s[1..];
    if s[0] == x {
      assert x in multiset(s[1..]);
      var j :| 0 <= j < |s[1..]| && s[1..][j] == x;
      assert s[0] == x && s[j + 1] == x;
    } else {
      TwoPositions(s[1..], x);
      var i, j :| 0 <= i < j < |s[1..]| && s[1..][i] == x && s[1..][j] == x;
      assert s[i + 1] == x && s[j + 1] == x;
    }
  }

  /** Under a dense numbering two different kept unmerged records carry different orders. */
  lemma {:induction false} KeptOrdersDistinct(m: seq<Item>, i: nat, j: nat)
    requires DenseOrders(m)
    requires i < j < |Filter(IsUnmerged, m)|
    ensures Filter(IsUnmerged, m)[i].order != Filter(IsUnmerged, m)[j].order
  {
    var kept := Filter(IsUnmerged, m);
    FilterPositions(IsUnmerged, m, i);
    FilterPositions(IsUnmerged, m, j);
    var a :| 0 <= a < |m| && kept[i] == m[a] && |Filter(IsUnmerged, m[..a])| == i;
    var b :| 0 <= b < |m| && kept[j] == m[b] && |Filter(IsUnmerged, m[..b])| == j;
    if b <= a {
      PrefixCountMonotone(IsUnmerged, m, b, a);
    }
  }

  /** Under a dense numbering no two entries of the audio listing share an order. */
  lemma {:induction false} ListingOrdersDistinct(m: seq<Item>, p: nat, q: nat)
    requires DenseOrders(m)
    requires p < q < |ListAudio(m)|
    ensures ListAudio(m)[p].order != ListAudio(m)[q].order
  {
    var l, u := ListAudio(m), Filter(IsUnmerged, m);
    ListAudioMembers(m);
    if l[p] == l[q] {
      CountTwo(l, p, q);
      TwoPositions(u, l[p]);
      var i, j :| 0 <= i < j < |u| && u[i] == l[p] && u[j] == l[p];
      KeptOrdersDistinct(m, i, j);
      assert false;
    } else {
      assert l[p] in m && l[q] in m;
      var a :| 0 <= a < |m| && m[a] == l[p];
      var b :| 0 <= b < |m| && m[b] == l[q];
      if a < b {
        assert m[a].order != m[b].order;
      } else {
        assert m[b].order != m[a].order;
      }
    }
  }

  /** Strictly increasing integers in 1..n, n of them, are exactly 1, 2, ..., n. */
  lemma {:induction false} IncreasingPinned(s: seq<int>, p: nat)
    requires forall i, j :: 0 <= i < j < |s| ==> s[i] < s[j]
    requires forall i :: 0 <= i < |s| ==> 1 <= s[i] <= |s|
    requires p < |s|
    ensures s[p] == p + 1
  {
    LowerPinned(s, p);
    UpperPinned(s, p);
  }

  lemma {:induction false} LowerPinned(s: seq<int>, p: nat)
    requires forall i, j :: 0 <= i < j < |s| ==> s[i] < s[j]
    requires forall i :: 0 <= i < |s| ==> 1 <= s[i]
    requires p < |s|
    ensures s[p] >= p + 1
  {
    if p > 0 {
      LowerPinned(s, p - 1);
    }
  }

  lemma {:induction false} UpperPinned(s: seq<int>, p: nat)
    requires forall i, j :: 0 <= i < j < |s| ==> s[i] < s[j]
    requires forall i :: 0 <= i < |s| ==> s[i] <= |s|
    requires p < |s|
    ensures s[p] <= p + 1
    decreases |s| - p
  {
    if p < |s| - 1 {
      UpperPinned(s, p + 1);
    }
  }

  /** Under a dense numbering the audio listing shows the orders 1, 2, ..., n in sequence. */
  lemma {:induction false} DenseListing(m: seq<Item>)
    requires DenseOrders(m)
    ensures |ListAudio(m)| == UnmergedCount(m)
    ensures forall p :: 0 <= p < |ListAudio(m)| ==> ListAudio(m)[p].order == Some(p + 1)
  {
    var l := ListAudio(m);
    var keys := seq(|l|, p requires 0 <= p < |l| => OrderKey(l[p]));
    forall p | 0 <= p < |l| ensures l[p].order.Some? && 1 <= keys[p] <= |l| {
      ListedOrderInRange(m, p);
    }
    forall p, q | 0 <= p < q < |l| ensures keys[p] < keys[q] {
      ListingOrdersDistinct(m, p, q);
    }
    forall p | 0 <= p < |l| ensures l[p].order == Some(p + 1) {
      IncreasingPinned(keys, p);
    }
  }

  /** Under a dense numbering every listed record carries an order in 1..n. */
  lemma {:induction false} ListedOrderInRange(m: seq<Item>, p: nat)
    requires DenseOrders(m) && p < |ListAudio(m)|
    ensures ListAudio(m)[p].order.Some? && 1 <= ListAudio(m)[p].order.value <= |ListAudio(m)|
  {
    var l := ListAudio(m);
    ListAudioMembers(m);
    assert l[p] in m;
    var a :| 0 <= a < |m| && m[a] == l[p];
  }

  // ----- downloads -----

  /** The name offered for download: a merged record's display name gets `.mp3` appended
      unless it already ends with it in any letter case. */
  function DownloadName(x: Item): (r: string)
    ensures IsMerged(x) ==> PyText.EndsWithMp3(r)
    ensures !IsMerged(x) || PyText.EndsWithMp3(x.displayName) ==> r == x.displayName
    ensures r == x.displayName || r == x.displayName + ".mp3"
  {
    if IsMerged(x) && !PyText.EndsWithMp3(x.displayName) then
      PyText.AppendMp3(x.displayName);
      x.displayName + ".mp3"
    else x.displayName
  }

  /** Renaming a record to its download name and asking again adds nothing more. */
  lemma {:induction false} DownloadNameIdempotent(x: Item)
    ensures DownloadName(x.(displayName := DownloadName(x))) == DownloadName(x)
  {
  }

  datatype Download = Download(path: string, filename: string)

  /** `download_audio(id)`: the first record with the id, of either kind, if its file exists
      (`onDisk` is the set of existing paths); 404 when there is no such record or its file is
      gone. A later record with the same id is never looked at. */
  function DownloadAudio(m: seq<Item>, id: string, onDisk: set<string>): (r: Result<Download>)
    ensures r.Err? ==> r.error == NotFound
    ensures (forall i :: 0 <= i < |m| ==> m[i].id != id) ==> r.Err?
    ensures r.Ok? ==> exists i :: (0 <= i < |m| && m[i].id == id && m[i].path == r.value.path
      && r.value.filename == DownloadName(m[i]) && (forall j :: 0 <= j < i ==> m[j].id != id))
    ensures r.Ok? ==> r.value.path in onDisk
    ensures r.Ok? <==> exists i :: 0 <= i < |m| && m[i].id == id && m[i].path in onDisk
                                   && forall j :: 0 <= j < i ==> m[j].id != id
  {
    var k := FirstIndex(m, HasId(id));
    if k < 0 || m[k].path !in onDisk then Err(NotFound)
    else Ok(Download(m[k].path, DownloadName(m[k])))
  }
}
