/** The handlers that edit stored records in place: rename (`update_audio`, `update_processed`),
    delete everything of one kind (`delete_all_audio`, `delete_all_processed`) and delete one
    record (`delete_audio`, which renumbers, and `delete_processed_audio`, which does not). */
module MetadataEdits {
  import opened Wrappers
  import opened Seqs
  import opened AudioMetadata

  // ----- facts about the two kinds of record -----

  /** Removing one record of a kind leaves the records of the other kind as they were. */
  lemma {:induction false} RemoveOther(m: seq<Item>, k: nat, p: Item -> bool)
    requires k < |m| && !p(m[k])
    ensures Filter(p, m[..k] + m[k + 1..]) == Filter(p, m)
  {
    var a, b := m[..k], m[k + 1..];
    assert m == m[..k + 1] + b;
    FilterAppend(p, m[..k + 1], b);
    FilterSnoc(p, m, k);
    FilterAppend(p, a, b);
  }

  // ----- rename -----

  /** The request body of both rename handlers; its `order` is accepted and ignored. */
  datatype AudioUpdate = AudioUpdate(displayName: Option<string>, order: Option<int>)

  /** The predicate "has this id and is of this kind". */
  function KindWithId(id: string, merged: bool): Item -> bool {
    (x: Item) => x.id == id && IsMerged(x) == merged
  }

  /** `update_audio` (merged = false) and `update_processed` (merged = true) on loaded records:
      the first record of the kind with the id gets the new display name, when one is given;
      the records to save and the record returned, or 404. */
  function Rename(m: seq<Item>, id: string, merged: bool, u: AudioUpdate): (r: Result<(seq<Item>, Item)>)
    ensures r.Err? <==> forall i :: 0 <= i < |m| ==> !KindWithId(id, merged)(m[i])
    ensures r.Err? ==> r.error == NotFound
    ensures r.Ok? ==> |r.value.0| == |m| && r.value.1.id == id && IsMerged(r.value.1) == merged
  {
    var k := FirstIndex(m, KindWithId(id, merged));
    if k < 0 then Err(NotFound)
    else
      var x := if u.displayName.Some? then m[k].(displayName := u.displayName.value) else m[k];
      Ok((m[k := x], x))
  }

  /** A rename touches one record, the first of the kind with the id, and of that record only
      the display name; the new name is the one given, or the old one when none is given. */
  lemma {:induction false} RenameSpec(m: seq<Item>, id: string, merged: bool, u: AudioUpdate)
    requires Rename(m, id, merged, u).Ok?
    ensures var (m2, x) := Rename(m, id, merged, u).value; var k := FirstIndex(m, KindWithId(id, merged));
      && 0 <= k < |m| && m2[k] == x
      && (forall i :: 0 <= i < |m| && i != k ==> m2[i] == m[i])
      && x == m[k].(displayName := x.displayName)
      && x.displayName == u.displayName.GetOr(m[k].displayName)
  {
  }

  /** The `order` of the request never matters. */
  lemma {:induction false} RenameIgnoresOrder(m: seq<Item>, id: string, merged: bool, u: AudioUpdate, o: Option<int>)
    ensures Rename(m, id, merged, u) == Rename(m, id, merged, u.(order := o))
  {
  }

  /** Renaming twice is renaming once to the second name. */
  lemma {:induction false} RenameTwice(m: seq<Item>, id: string, merged: bool, a: string, b: string)
    requires Rename(m, id, merged, AudioUpdate(Some(a), None)).Ok?
    ensures var m1 := Rename(m, id, merged, AudioUpdate(Some(a), None)).value.0;
      Rename(m1, id, merged, AudioUpdate(Some(b), None)) == Rename(m, id, merged, AudioUpdate(Some(b), None))
  {
    var p := KindWithId(id, merged);
    var k := FirstIndex(m, p);
    var m1 := Rename(m, id, merged, AudioUpdate(Some(a), None)).value.0;
    assert p(m1[k]);
    assert forall j :: 0 <= j < k ==> m1[j] == m[j];
    assert FirstIndex(m1, p) == k;
    assert m1[k := m1[k].(displayName := b)] == m[k := m[k].(displayName := b)];
  }

  /** Renaming keeps the kinds, ids and orders, so the numbering stays dense and the listings
      keep their records. */
  lemma {:induction false} RenameKeepsOrders(m: seq<Item>, id: string, merged: bool, u: AudioUpdate)
    requires DenseOrders(m) && Rename(m, id, merged, u).Ok?
    ensures var m2 := Rename(m, id, merged, u).value.0;
      && DenseOrders(m2)
      && UnmergedIds(m2) == UnmergedIds(m)
      && (!merged ==> ListProcessed(m2) == ListProcessed(m))
  {
    RenameSpec(m, id, merged, u);
    var m2 := Rename(m, id, merged, u).value.0;
    assert forall i :: 0 <= i < |m| ==>
      m2[i].id == m[i].id && IsUnmerged(m2[i]) == IsUnmerged(m[i]) && m2[i].order == m[i].order;
    SameOrdersKeepDense(m, m2);
    SameUnmergedIdSet(m, m2);
    if !merged {
      SameMergedRecords(m, m2);
    }
  }

  /** Records that keep their kind and order keep a dense numbering dense. */
  lemma {:induction false} SameOrdersKeepDense(m: seq<Item>, m2: seq<Item>)
    requires |m| == |m2| && DenseOrders(m)
    requires forall i :: 0 <= i < |m| ==> IsUnmerged(m2[i]) == IsUnmerged(m[i]) && m2[i].order == m[i].order
    ensures DenseOrders(m2)
  {
    SameUnmergedCount(m, m2);
  }

  /** Records that keep their kind and id keep the set of unmerged ids. */
  lemma {:induction false} SameUnmergedIdSet(m: seq<Item>, m2: seq<Item>)
    requires |m| == |m2|
    requires forall i :: 0 <= i < |m| ==> IsUnmerged(m2[i]) == IsUnmerged(m[i]) && m2[i].id == m[i].id
    ensures UnmergedIds(m2) == UnmergedIds(m)
  {
  }

  // ----- delete everything of one kind -----

  /** The file paths of some records, the files a handler tries to remove. */
  function Paths(s: seq<Item>): (r: seq<string>)
    ensures |r| == |s| && forall i :: 0 <= i < |s| ==> r[i] == s[i].path
  {
    seq(|s|, i requires 0 <= i < |s| => s[i].path)
  }

  /** Appending a record appends its path. */
  lemma {:induction false} PathsSnoc(s: seq<Item>, x: Item)
    ensures Paths(s + [x]) == Paths(s) + [x.path]
  {
    assert |Paths(s + [x])| == |Paths(s) + [x.path]|;
    forall i | 0 <= i < |s| + 1 ensures Paths(s + [x])[i] == (Paths(s) + [x.path])[i] {
      if i < |s| {
        assert (s + [x])[i] == s[i];
      }
    }
  }

  /** `delete_all_audio()` on loaded records: the records to save and the files to remove. */
  function DeleteAllAudio(m: seq<Item>): (seq<Item>, seq<string>) {
    (Filter(IsMerged, m), Paths(Filter(IsUnmerged, m)))
  }

  /** `delete_all_processed()` on loaded records: the records to save and the files to remove. */
  function DeleteAllProcessed(m: seq<Item>): (seq<Item>, seq<string>) {
    (Filter(IsUnmerged, m), Paths(Filter(IsMerged, m)))
  }

  lemma {:induction false} FilterMergedTwice(m: seq<Item>)
    ensures Filter(IsMerged, Filter(IsMerged, m)) == Filter(IsMerged, m)
    ensures Filter(IsUnmerged, Filter(IsMerged, m)) == []
    ensures Filter(IsUnmerged, Filter(IsUnmerged, m)) == Filter(IsUnmerged, m)
    ensures Filter(IsMerged, Filter(IsUnmerged, m)) == []
  {
    if m != [] {
      FilterMergedTwice(m[1..]);
      var h := [m[0]];
      FilterAppend(IsMerged, if IsMerged(m[0]) then h else [], Filter(IsMerged, m[1..]));
      FilterAppend(IsUnmerged, if IsMerged(m[0]) then h else [], Filter(IsMerged, m[1..]));
      FilterAppend(IsMerged, if IsUnmerged(m[0]) then h else [], Filter(IsUnmerged, m[1..]));
      FilterAppend(IsUnmerged, if IsUnmerged(m[0]) then h else [], Filter(IsUnmerged, m[1..]));
    }
  }

  /** After deleting all audio the audio listing is empty, the processed listing is unchanged
      and the next upload is numbered 1; the files of exactly the removed records are removed. */
  lemma {:induction false} DeleteAllAudioSpec(m: seq<Item>)
    ensures var (kept, removed) := DeleteAllAudio(m);
      && ListAudio(kept) == []
      && ListProcessed(kept) == ListProcessed(m)
      && removed == Paths(Filter(IsUnmerged, m))
      && UnmergedCount(kept) == 0
      && DenseOrders(kept)
  {
    FilterMergedTwice(m);
    var kept := Filter(IsMerged, m);
    assert forall i :: 0 <= i < |kept| ==> !IsUnmerged(kept[i]);
  }

  /** Every record is either kept or has its file removed. */
  lemma {:induction false} DeleteAllCounts(m: seq<Item>)
    ensures |DeleteAllAudio(m).0| + |DeleteAllAudio(m).1| == |m|
    ensures |DeleteAllProcessed(m).0| + |DeleteAllProcessed(m).1| == |m|
  {
    PartitionCount(m);
  }

  /** After deleting all processed files the processed listing is empty and the unmerged records
      are exactly those stored before, in the same order, so the audio listing is unchanged and
      a dense numbering stays dense. */
  lemma {:induction false} DeleteAllProcessedSpec(m: seq<Item>)
    ensures var (kept, removed) := DeleteAllProcessed(m);
      && ListProcessed(kept) == []
      && Filter(IsUnmerged, kept) == Filter(IsUnmerged, m)
      && ListAudio(kept) == ListAudio(m)
      && removed == Paths(Filter(IsMerged, m))
      && (DenseOrders(m) ==> DenseOrders(kept))
  {
    FilterMergedTwice(m);
    var kept := Filter(IsUnmerged, m);
    if DenseOrders(m) {
      SubsequenceKeepsDense(m, kept);
    }
  }

  /** Keeping exactly the unmerged records keeps a dense numbering dense. */
  lemma {:induction false} SubsequenceKeepsDense(m: seq<Item>, kept: seq<Item>)
    requires DenseOrders(m) && kept == Filter(IsUnmerged, m)
    ensures DenseOrders(kept)
  {
    FilterMergedTwice(m);
    forall i | 0 <= i < |kept| && IsUnmerged(kept[i])
      ensures kept[i].order.Some? && 1 <= kept[i].order.value <= UnmergedCount(kept)
    {
      FilterPositions(IsUnmerged, m, i);
    }
    forall i, j | 0 <= i < j < |kept| && IsUnmerged(kept[i]) && IsUnmerged(kept[j])
      ensures kept[i].order != kept[j].order
    {
      KeptOrdersDistinct(m, i, j);
    }
  }

  // ----- delete one unmerged record -----

  /** The renumbering loop of `delete_audio`: walking the stored list, the unmerged records get
      the orders next, next + 1, ... by position; merged records are left alone. */
  function Renumber(s: seq<Item>, next: int): (r: seq<Item>)
    ensures |r| == |s|
  {
    if s == [] then []
    else if IsUnmerged(s[0]) then [s[0].(order := Some(next))] + Renumber(s[1..], next + 1)
    else [s[0]] + Renumber(s[1..], next)
  }

  /** The renumbering in closed form: each unmerged record gets `next` plus the number of
      unmerged records stored before it; nothing else about any record changes. */
  lemma {:induction false} RenumberAt(s: seq<Item>, next: int, i: nat)
    requires i < |s|
    ensures Renumber(s, next)[i] == s[i].(order := Renumber(s, next)[i].order)
    ensures IsMerged(s[i]) ==> Renumber(s, next)[i] == s[i]
    ensures IsUnmerged(s[i]) ==> Renumber(s, next)[i].order == Some(next + UnmergedCount(s[..i]))
  {
    if i > 0 {
      var n' := if IsUnmerged(s[0]) then next + 1 else next;
      RenumberAt(s[1..], n', i - 1);
      assert s[..i] == [s[0]] + s[1..][..i - 1];
      FilterAppend(IsUnmerged, [s[0]], s[1..][..i - 1]);
    } else {
      assert s[..0] == [];
    }
  }

  /** Renumbering from 1 always yields a dense numbering, whatever the orders were before, and
      keeps every merged record. */
  lemma {:induction false} RenumberDense(s: seq<Item>)
    ensures DenseOrders(Renumber(s, 1))
    ensures Filter(IsMerged, Renumber(s, 1)) == Filter(IsMerged, s)
  {
    var r := Renumber(s, 1);
    forall i | 0 <= i < |r| ensures r[i] == s[i].(order := r[i].order) && (IsMerged(s[i]) ==> r[i] == s[i]) {
      RenumberAt(s, 1, i);
    }
    SameMergedRecords(s, r);
    SameUnmergedCount(s, r);
    forall i | 0 <= i < |r| && IsUnmerged(r[i])
      ensures r[i].order.Some? && 1 <= r[i].order.value <= UnmergedCount(r)
    {
      RenumberAt(s, 1, i);
      PrefixCountMonotone(IsUnmerged, s, i + 1, |s|);
      FilterSnoc(IsUnmerged, s, i);
      assert s[..|s|] == s;
    }
    forall i, j | 0 <= i < j < |r| && IsUnmerged(r[i]) && IsUnmerged(r[j])
      ensures r[i].order != r[j].order
    {
      RenumberAt(s, 1, i);
      RenumberAt(s, 1, j);
      FilterSnoc(IsUnmerged, s, i);
      PrefixCountMonotone(IsUnmerged, s, i + 1, j);
    }
  }

  /** `delete_audio(id)` on loaded records: the first unmerged record with the id is removed and
      the rest renumbered; the records to save and the file to remove, or 404. */
  function DeleteAudio(m: seq<Item>, id: string): (r: Result<(seq<Item>, string)>)
    ensures r.Err? <==> forall i :: 0 <= i < |m| ==> !UnmergedWithId(id)(m[i])
    ensures r.Err? ==> r.error == NotFound
    ensures r.Ok? ==> |r.value.0| == |m| - 1
  {
    var k := FirstIndex(m, UnmergedWithId(id));
    if k < 0 then Err(NotFound)
    else Ok((Renumber(m[..k] + m[k + 1..], 1), m[k].path))
  }

  /** A successful delete removes the first unmerged record with the id and its file, leaves
      the merged records as they were, and leaves the unmerged ones numbered 1..n densely, by
      stored position. */
  lemma {:induction false} DeleteAudioSpec(m: seq<Item>, id: string)
    requires DeleteAudio(m, id).Ok?
    ensures var (m2, path) := DeleteAudio(m, id).value; var k := FirstIndex(m, UnmergedWithId(id));
      && 0 <= k < |m| && path == m[k].path
      && m2 == Renumber(m[..k] + m[k + 1..], 1)
      && DenseOrders(m2)
      && ListProcessed(m2) == ListProcessed(m)
  {
    var k := FirstIndex(m, UnmergedWithId(id));
    var rest := m[..k] + m[k + 1..];
    RenumberDense(rest);
    RemoveOther(m, k, IsMerged);
  }

  /** A successful delete leaves one unmerged record fewer. */
  lemma {:induction false} DeleteAudioCount(m: seq<Item>, id: string)
    requires DeleteAudio(m, id).Ok?
    ensures UnmergedCount(DeleteAudio(m, id).value.0) == UnmergedCount(m) - 1
  {
    var k := FirstIndex(m, UnmergedWithId(id));
    var rest := m[..k] + m[k + 1..];
    var r := Renumber(rest, 1);
    forall i | 0 <= i < |r| ensures IsUnmerged(r[i]) == IsUnmerged(rest[i]) {
      RenumberAt(rest, 1, i);
    }
    SameUnmergedCount(rest, r);
    var a, b := m[..k], m[k + 1..];
    assert m == a + ([m[k]] + b);
    FilterAppend(IsUnmerged, a, [m[k]] + b);
    FilterAppend(IsUnmerged, [m[k]], b);
    assert Filter(IsUnmerged, [m[k]]) == [m[k]];
    FilterAppend(IsUnmerged, a, b);
  }

  /** Because the renumbering goes by stored position, the audio listing after a delete is the
      stored order of the unmerged records, whatever order a reorder had given them. */
  lemma {:induction false} DeleteAudioListsStoredOrder(m: seq<Item>, id: string)
    requires DeleteAudio(m, id).Ok?
    ensures var m2 := DeleteAudio(m, id).value.0; ListAudio(m2) == Filter(IsUnmerged, m2)
  {
    var k := FirstIndex(m, UnmergedWithId(id));
    var rest := m[..k] + m[k + 1..];
    var m2 := Renumber(rest, 1);
    var u := Filter(IsUnmerged, m2);
    forall a, b | 0 <= a < b < |u| ensures OrderKey(u[a]) <= OrderKey(u[b]) {
      RenumberedKeysIncrease(rest, a, b);
    }
    SortSorted(u);
  }

  /** The unmerged records of a renumbered list, in stored order, have increasing orders. */
  lemma {:induction false} RenumberedKeysIncrease(s: seq<Item>, a: nat, b: nat)
    requires a < b < |Filter(IsUnmerged, Renumber(s, 1))|
    ensures var u := Filter(IsUnmerged, Renumber(s, 1)); OrderKey(u[a]) <= OrderKey(u[b])
  {
    var m2 := Renumber(s, 1);
    var u := Filter(IsUnmerged, m2);
    FilterPositions(IsUnmerged, m2, a);
    FilterPositions(IsUnmerged, m2, b);
    var i :| 0 <= i < |m2| && u[a] == m2[i] && UnmergedCount(m2[..i]) == a;
    var j :| 0 <= j < |m2| && u[b] == m2[j] && UnmergedCount(m2[..j]) == b;
    assert IsUnmerged(m2[i]) && IsUnmerged(m2[j]);
    RenumberUnmergedOrder(s, i);
    RenumberUnmergedOrder(s, j);
  }

  /** In a renumbered list an unmerged record's order is one more than the number of unmerged
      records stored before it. */
  lemma {:induction false} RenumberUnmergedOrder(s: seq<Item>, i: nat)
    requires i < |s| && IsUnmerged(Renumber(s, 1)[i])
    ensures Renumber(s, 1)[i].order == Some(1 + UnmergedCount(Renumber(s, 1)[..i]))
  {
    var r := Renumber(s, 1);
    RenumberAt(s, 1, i);
    forall j | 0 <= j < i ensures IsUnmerged(r[..i][j]) == IsUnmerged(s[..i][j]) {
      RenumberAt(s, 1, j);
    }
    SameUnmergedCount(s[..i], r[..i]);
  }

  // ----- delete one processed record -----

  /** The predicate of `delete_processed_audio`: the id, and `merged` true or missing. */
  function ProcessedMatch(id: string): Item -> bool {
    (x: Item) => x.id == id && x.merged.GetOr(true)
  }

  /** `delete_processed_audio(id)` on loaded records: the first match is removed, nothing is
      renumbered; the records to save and the file to remove, or 404. */
  function DeleteProcessed(m: seq<Item>, id: string): (r: Result<(seq<Item>, string)>)
    ensures r.Err? <==> forall i :: 0 <= i < |m| ==> !ProcessedMatch(id)(m[i])
    ensures r.Err? ==> r.error == NotFound
    ensures r.Ok? ==> |r.value.0| == |m| - 1
    ensures r.Ok? ==> exists k :: (0 <= k < |m| && ProcessedMatch(id)(m[k])
      && (forall j :: 0 <= j < k ==> !ProcessedMatch(id)(m[j]))
      && r.value == (m[..k] + m[k + 1..], m[k].path))
  {
    var k := FirstIndex(m, ProcessedMatch(id));
    if k < 0 then Err(NotFound)
    else
      var r := (m[..k] + m[k + 1..], m[k].path);
      assert 0 <= k < |m| && ProcessedMatch(id)(m[k]) && r == (m[..k] + m[k + 1..], m[k].path);
      Ok(r)
  }

  /** Deleting a merged record leaves the unmerged records, their listing and their numbering
      as they were. */
  lemma {:induction false} DeleteProcessedSpec(m: seq<Item>, id: string)
    requires DeleteProcessed(m, id).Ok?
    requires IsMerged(m[FirstIndex(m, ProcessedMatch(id))])
    ensures var m2 := DeleteProcessed(m, id).value.0;
      && Filter(IsUnmerged, m2) == Filter(IsUnmerged, m)
      && ListAudio(m2) == ListAudio(m)
      && (DenseOrders(m) ==> DenseOrders(m2))
  {
    var k := FirstIndex(m, ProcessedMatch(id));
    RemoveOther(m, k, IsUnmerged);
    if DenseOrders(m) {
      RemoveMergedKeepsDense(m, k);
    }
  }

  /** Deleting a merged record takes exactly that record out of the processed listing, at its
      place, and keeps the order of the others. */
  lemma {:induction false} DeleteProcessedListing(m: seq<Item>, id: string)
    requires DeleteProcessed(m, id).Ok?
    requires IsMerged(m[FirstIndex(m, ProcessedMatch(id))])
    ensures var k := FirstIndex(m, ProcessedMatch(id)); var m2 := DeleteProcessed(m, id).value.0;
      var before := ListProcessed(m); var after := ListProcessed(m2);
      exists p :: 0 <= p < |before| && before[p] == m[k] && after == before[..p] + before[p + 1..]
  {
    var k := FirstIndex(m, ProcessedMatch(id));
    var m2 := m[..k] + m[k + 1..];
    var pre, post := Filter(IsMerged, m[..k]), Filter(IsMerged, m[k + 1..]);
    assert m == m[..k] + ([m[k]] + m[k + 1..]);
    FilterAppend(IsMerged, m[..k], [m[k]] + m[k + 1..]);
    FilterAppend(IsMerged, [m[k]], m[k + 1..]);
    assert Filter(IsMerged, [m[k]]) == [m[k]];
    FilterAppend(IsMerged, m[..k], m[k + 1..]);
    var before := pre + [m[k]] + post;
    assert ListProcessed(m) == before;
    assert ListProcessed(m2) == pre + post;
    var p := |pre|;
    assert before[p] == m[k];
    assert before[..p] == pre && before[p + 1..] == post;
  }

  /** Removing one merged record keeps a dense numbering dense. */
  lemma {:induction false} RemoveMergedKeepsDense(m: seq<Item>, k: nat)
    requires k < |m| && !IsUnmerged(m[k]) && DenseOrders(m)
    ensures DenseOrders(m[..k] + m[k + 1..])
  {
    var m2 := m[..k] + m[k + 1..];
    RemoveOther(m, k, IsUnmerged);
    forall i | 0 <= i < |m2| && IsUnmerged(m2[i])
      ensures m2[i].order.Some? && 1 <= m2[i].order.value <= UnmergedCount(m2)
    {
      RemovedAt(m, k, i);
    }
    forall i, j | 0 <= i < j < |m2| && IsUnmerged(m2[i]) && IsUnmerged(m2[j])
      ensures m2[i].order != m2[j].order
    {
      RemovedAt(m, k, i);
      RemovedAt(m, k, j);
    }
  }

  /** Position `i` after removing position `k`. */
  lemma {:induction false} RemovedAt(m: seq<Item>, k: nat, i: nat)
    requires k < |m| && i < |m| - 1
    ensures (m[..k] + m[k + 1..])[i] == m[if i < k then i else i + 1]
  {
  }

  /** A record without a `merged` key counts as unmerged everywhere else, yet this handler
      deletes it: it is listed as audio and removed as processed. */
  lemma {:induction false} DeleteProcessedTakesUnmarked(m: seq<Item>, id: string, k: nat)
    requires k < |m| && m[k].id == id && m[k].merged.None?
    requires forall i :: 0 <= i < k ==> m[i].id != id
    ensures DeleteProcessed(m, id) == Ok((m[..k] + m[k + 1..], m[k].path))
    ensures m[k] in ListAudio(m)
  {
    var r := FirstIndex(m, ProcessedMatch(id));
    assert ProcessedMatch(id)(m[k]);
    assert r >= 0 && !(r < k) && !(r > k);
    FilterMembers(IsUnmerged, m);
    assert m[k] in Filter(IsUnmerged, m);
    assert m[k] in multiset(ListAudio(m));
  }
}
