/** `reorder_audio`: the client sends the ids of the waiting uploads in their new order, and each
    listed record is renumbered with its position. */
module Reorder {
  import opened Wrappers
  import opened Seqs
  import opened AudioMetadata

  /** The renumbering loop over `enumerate(new_order_ids)`. The record looked up for an id is the
      one `{item['id']: item for item in metadata}` keeps, the last with that id; it gets order
      `i + 1` when it is unmerged, and a later position of the same id overwrites an earlier one. */
  function AssignOrders(m: seq<Item>, ids: seq<string>): (r: seq<Item>)
    ensures |r| == |m|
    decreases |ids|
  {
    if ids == [] then m
    else
      var r := AssignOrders(m, ids[..|ids| - 1]);
      var k := LastIndex(m, HasId(ids[|ids| - 1]));
      if k >= 0 && IsUnmerged(m[k]) then r[k := r[k].(order := Some(|ids|))] else r
  }

  /** The loop over a prefix of the list, one position further. */
  lemma {:induction false} AssignOrdersStep(m: seq<Item>, ids: seq<string>, i: nat)
    requires i < |ids|
    ensures var r := AssignOrders(m, ids[..i]);
      var k := LastIndex(m, HasId(ids[i]));
      AssignOrders(m, ids[..i + 1]) == if k >= 0 && IsUnmerged(m[k]) then r[k := r[k].(order := Some(i + 1))] else r
  {
    assert ids[..i + 1][..i] == ids[..i];
  }

  /** The order record `i` ends up with, stated without the loop: one more than the last position
      of its id in the list, when it is the unmerged record kept for its id and the id is listed;
      otherwise the order it had. */
  function FinalOrder(m: seq<Item>, ids: seq<string>, i: nat): Option<int>
    requires i < |m|
  {
    var pos := LastIndex(ids, Equals(m[i].id));
    if IsUnmerged(m[i]) && LastIndex(m, HasId(m[i].id)) == i && pos >= 0 then Some(pos + 1)
    else m[i].order
  }

  /** The loop computes the closed form. */
  lemma {:induction false} AssignOrdersAt(m: seq<Item>, ids: seq<string>, i: nat)
    requires i < |m|
    ensures AssignOrders(m, ids)[i].order == FinalOrder(m, ids, i)
  {
    if ids != [] {
      var init := ids[..|ids| - 1];
      AssignOrdersAt(m, init, i);
      AssignOrdersLast(m, ids, i);
      LastIndexSnoc(ids, m[i].id);
    }
  }

  /** One iteration of the loop: record `i` is renumbered with the list's length exactly when it
      is the unmerged record kept for the last id. */
  lemma {:induction false} AssignOrdersLast(m: seq<Item>, ids: seq<string>, i: nat)
    requires i < |m| && ids != []
    ensures var x := ids[|ids| - 1];
      AssignOrders(m, ids)[i].order ==
        if IsUnmerged(m[i]) && m[i].id == x && LastIndex(m, HasId(m[i].id)) == i then Some(|ids|)
        else AssignOrders(m, ids[..|ids| - 1])[i].order
  {
    var x := ids[|ids| - 1];
    var k := LastIndex(m, HasId(x));
    if k == i {
      assert HasId(x)(m[k]);
    }
  }

  /** The last position of an id in a list grown by one. */
  lemma {:induction false} LastIndexSnoc(ids: seq<string>, id: string)
    requires ids != []
    ensures LastIndex(ids, Equals(id)) ==
      if ids[|ids| - 1] == id then |ids| - 1 else LastIndex(ids[..|ids| - 1], Equals(id))
  {
  }

  /** Nothing but `order` changes, and merged records do not change at all. */
  lemma {:induction false} AssignOrdersFrame(m: seq<Item>, ids: seq<string>)
    ensures var r := AssignOrders(m, ids);
      && (forall i :: 0 <= i < |m| ==> r[i] == m[i].(order := r[i].order))
      && (forall i :: 0 <= i < |m| && IsMerged(m[i]) ==> r[i] == m[i])
  {
    if ids != [] {
      AssignOrdersFrame(m, ids[..|ids| - 1]);
    }
  }

  /** Sending the same list twice renumbers nothing the second time. */
  lemma {:induction false} ReorderIdempotent(m: seq<Item>, ids: seq<string>)
    ensures AssignOrders(AssignOrders(m, ids), ids) == AssignOrders(m, ids)
  {
    var r := AssignOrders(m, ids);
    var rr := AssignOrders(r, ids);
    AssignOrdersFrame(m, ids);
    AssignOrdersFrame(r, ids);
    forall i | 0 <= i < |m| ensures rr[i].order == r[i].order {
      FinalOrderAgain(m, ids, i);
    }
  }

  /** Record `i` gets the same order from a second run as from the first. */
  lemma {:induction false} FinalOrderAgain(m: seq<Item>, ids: seq<string>, i: nat)
    requires i < |m|
    ensures AssignOrders(AssignOrders(m, ids), ids)[i].order == AssignOrders(m, ids)[i].order
  {
    var r := AssignOrders(m, ids);
    AssignOrdersKeys(m, ids);
    SameLastIndex(m, r, m[i].id);
    AssignOrdersAt(m, ids, i);
    AssignOrdersAt(r, ids, i);
    FinalOrderStable(m, r, ids, i);
  }

  /** A record whose order is already its final one, in a list with the same ids and kinds,
      keeps it. */
  lemma {:induction false} FinalOrderStable(m: seq<Item>, r: seq<Item>, ids: seq<string>, i: nat)
    requires i < |m| == |r|
    requires r[i].id == m[i].id && IsUnmerged(r[i]) == IsUnmerged(m[i])
    requires LastIndex(r, HasId(m[i].id)) == LastIndex(m, HasId(m[i].id))
    requires r[i].order == FinalOrder(m, ids, i)
    ensures FinalOrder(r, ids, i) == r[i].order
  {
  }

  /** The loop keeps every record's id and kind. */
  lemma {:induction false} AssignOrdersKeys(m: seq<Item>, ids: seq<string>)
    ensures var r := AssignOrders(m, ids);
      forall i :: 0 <= i < |m| ==> r[i].id == m[i].id && IsUnmerged(r[i]) == IsUnmerged(m[i])
  {
    AssignOrdersFrame(m, ids);
  }

  /** Renumbering does not move any id: the last record with an id stays the last one. */
  lemma {:induction false} SameLastIndex(m: seq<Item>, r: seq<Item>, id: string)
    requires |m| == |r|
    requires forall i :: 0 <= i < |m| ==> r[i].id == m[i].id
    ensures LastIndex(r, HasId(id)) == LastIndex(m, HasId(id))
  {
    var a, b := LastIndex(r, HasId(id)), LastIndex(m, HasId(id));
    if a >= 0 && b >= 0 {
      assert r[b].id == id && m[a].id == id;
    }
  }

  /** The unmerged ids of a list grown by one record. */
  lemma {:induction false} UnmergedIdsSnoc(m: seq<Item>)
    requires m != []
    ensures var x := m[|m| - 1];
      UnmergedIds(m) == UnmergedIds(m[..|m| - 1]) + (if IsUnmerged(x) then {x.id} else {})
  {
    var init, x := m[..|m| - 1], m[|m| - 1];
    forall y | y in UnmergedIds(m) ensures y in UnmergedIds(init) + (if IsUnmerged(x) then {x.id} else {}) {
      var i :| 0 <= i < |m| && IsUnmerged(m[i]) && m[i].id == y;
      if i < |m| - 1 {
        assert init[i] == m[i];
      }
    }
    forall y | y in UnmergedIds(init) ensures y in UnmergedIds(m) {
      var i :| 0 <= i < |init| && IsUnmerged(init[i]) && init[i].id == y;
      assert m[i] == init[i];
    }
  }

  /** With unique ids, the set of unmerged ids is as large as the number of unmerged records. */
  lemma {:induction false} UnmergedIdsCount(m: seq<Item>)
    requires UniqueIds(m)
    ensures |UnmergedIds(m)| == UnmergedCount(m)
  {
    if m != [] {
      var init, x := m[..|m| - 1], m[|m| - 1];
      UniqueIdsInit(m);
      UnmergedIdsCount(init);
      FilterSnoc(IsUnmerged, m, |m| - 1);
      assert m[..|m|] == m;
      UnmergedIdsSnoc(m);
      LastIdNew(m);
    }
  }

  lemma {:induction false} UniqueIdsInit(m: seq<Item>)
    requires UniqueIds(m) && m != []
    ensures UniqueIds(m[..|m| - 1])
  {
    var init := m[..|m| - 1];
    forall i, j | 0 <= i < j < |init| ensures init[i].id != init[j].id {
      assert init[i] == m[i] && init[j] == m[j];
    }
  }

  lemma {:induction false} LastIdNew(m: seq<Item>)
    requires UniqueIds(m) && m != []
    ensures m[|m| - 1].id !in UnmergedIds(m[..|m| - 1])
  {
    var init := m[..|m| - 1];
    forall i | 0 <= i < |init| ensures init[i].id != m[|m| - 1].id {
      assert init[i] == m[i];
    }
  }

  /** Under unique ids, an unmerged record whose id is listed ends up with one more than the
      position of its id. */
  lemma {:induction false} ListedAt(m: seq<Item>, ids: seq<string>, i: nat)
    requires UniqueIds(m)
    requires i < |m| && IsUnmerged(m[i]) && m[i].id in ids
    ensures var pos := LastIndex(ids, Equals(m[i].id));
      0 <= pos && ids[pos] == m[i].id && AssignOrders(m, ids)[i].order == Some(pos + 1)
  {
    KeptIsSelf(m, i);
    ListedId(ids, m[i].id);
    AssignOrdersAt(m, ids, i);
  }

  /** With unique ids, the record kept for a record's id is that record. */
  lemma {:induction false} KeptIsSelf(m: seq<Item>, i: nat)
    requires UniqueIds(m) && i < |m|
    ensures LastIndex(m, HasId(m[i].id)) == i
  {
    assert HasId(m[i].id)(m[i]);
    var k := LastIndex(m, HasId(m[i].id));
    assert HasId(m[i].id)(m[k]);
  }

  /** A listed id has a last position, holding that id. */
  lemma {:induction false} ListedId(ids: seq<string>, id: string)
    requires id in ids
    ensures 0 <= LastIndex(ids, Equals(id)) && ids[LastIndex(ids, Equals(id))] == id
  {
    var j :| 0 <= j < |ids| && ids[j] == id;
    assert Equals(id)(ids[j]);
    assert Equals(id)(ids[LastIndex(ids, Equals(id))]);
  }

  /** The guard the handler checks, `set(new_order_ids) == current_unmerged_ids`. */
  predicate SameUnmergedIds(m: seq<Item>, ids: seq<string>) {
    Elements(ids) == UnmergedIds(m)
  }

  /** A list naming every waiting upload once renumbers them 1..n: the ordering invariant is
      restored whatever the stored orders were before. */
  lemma {:induction false} ReorderDense(m: seq<Item>, ids: seq<string>)
    requires UniqueIds(m) && Distinct(ids) && SameUnmergedIds(m, ids)
    ensures DenseOrders(AssignOrders(m, ids))
  {
    ReorderInRange(m, ids);
    ReorderDistinct(m, ids);
  }

  /** Every waiting upload gets an order between 1 and their number. */
  lemma {:induction false} ReorderInRange(m: seq<Item>, ids: seq<string>)
    requires UniqueIds(m) && Distinct(ids) && SameUnmergedIds(m, ids)
    ensures var r := AssignOrders(m, ids);
      forall i :: 0 <= i < |r| && IsUnmerged(r[i]) ==> r[i].order.Some? && 1 <= r[i].order.value <= UnmergedCount(r)
  {
    var r := AssignOrders(m, ids);
    AssignOrdersFrame(m, ids);
    UnmergedIdsCount(m);
    DistinctElements(ids);
    SameUnmergedCount(m, r);
    forall i | 0 <= i < |r| && IsUnmerged(r[i])
      ensures r[i].order.Some? && 1 <= r[i].order.value <= UnmergedCount(r)
    {
      assert m[i].id in UnmergedIds(m);
      ListedAt(m, ids, i);
    }
  }

  /** No two waiting uploads share an order. */
  lemma {:induction false} ReorderDistinct(m: seq<Item>, ids: seq<string>)
    requires UniqueIds(m) && SameUnmergedIds(m, ids)
    ensures var r := AssignOrders(m, ids);
      forall i, j :: 0 <= i < j < |r| && IsUnmerged(r[i]) && IsUnmerged(r[j]) ==> r[i].order != r[j].order
  {
    var r := AssignOrders(m, ids);
    AssignOrdersFrame(m, ids);
    forall i, j | 0 <= i < j < |r| && IsUnmerged(r[i]) && IsUnmerged(r[j])
      ensures r[i].order != r[j].order
    {
      assert m[i].id in UnmergedIds(m) && m[j].id in UnmergedIds(m);
      ListedAt(m, ids, i);
      ListedAt(m, ids, j);
    }
  }

  /** Under the guard, an unmerged record renumbered `p + 1` is the one named at position `p`. */
  lemma {:induction false} ListedPosition(m: seq<Item>, ids: seq<string>, a: nat, p: nat)
    requires UniqueIds(m) && SameUnmergedIds(m, ids)
    requires a < |m| && IsUnmerged(m[a]) && p < |ids|
    requires AssignOrders(m, ids)[a].order == Some(p + 1)
    ensures ids[p] == m[a].id
  {
    assert m[a].id in UnmergedIds(m);
    assert m[a].id in Elements(ids);
    ListedAt(m, ids, a);
  }

  /** ... and the audio listing then shows the uploads exactly in the order sent. */
  lemma {:induction false} ReorderListing(m: seq<Item>, ids: seq<string>)
    requires UniqueIds(m) && Distinct(ids) && SameUnmergedIds(m, ids)
    ensures |ListAudio(AssignOrders(m, ids))| == |ids|
    ensures forall p :: 0 <= p < |ids| ==> ListAudio(AssignOrders(m, ids))[p].id == ids[p]
  {
    var r := AssignOrders(m, ids);
    var l := ListAudio(r);
    AssignOrdersFrame(m, ids);
    ReorderDense(m, ids);
    DenseListing(r);
    UnmergedIdsCount(m);
    DistinctElements(ids);
    SameUnmergedCount(m, r);
    forall p | 0 <= p < |ids| ensures l[p].id == ids[p] {
      ListAudioSpec(r);
      assert l[p] in r;
      var a :| 0 <= a < |r| && r[a] == l[p];
      ListedPosition(m, ids, a, p);
    }
  }

  /** `reorder_audio(newOrder)` on loaded records: the records to save and the response, the
      renumbered audio listing. An empty list is a 400; a list whose ids are not exactly the
      unmerged ids raises a 400 inside the handler's `try`, which its `except Exception`
      turns into a 500. */
  function ReorderAudio(m: seq<Item>, newOrder: seq<string>): (r: Result<(seq<Item>, seq<Item>)>)
    ensures newOrder == [] ==> r == Err(BadRequest)
    ensures newOrder != [] && !SameUnmergedIds(m, newOrder) ==> r == Err(ServerError)
    ensures r.Ok? <==> newOrder != [] && SameUnmergedIds(m, newOrder)
  {
    if newOrder == [] then Err(BadRequest)
    else if !SameUnmergedIds(m, newOrder) then Err(ServerError)
    else
      var m2 := AssignOrders(m, newOrder);
      Ok((m2, ListAudio(m2)))
  }

  /** A successful reorder with unique ids on both sides: the saved records differ from the
      loaded ones only in the orders of unmerged records, they satisfy the ordering invariant,
      and the listing returned names the uploads in the order sent, numbered 1..n. */
  lemma {:induction false} ReorderAudioSpec(m: seq<Item>, newOrder: seq<string>)
    requires UniqueIds(m) && Distinct(newOrder)
    requires ReorderAudio(m, newOrder).Ok?
    ensures var (saved, listing) := ReorderAudio(m, newOrder).value;
      && |saved| == |m|
      && (forall i :: 0 <= i < |m| ==> saved[i] == m[i].(order := saved[i].order))
      && (forall i :: 0 <= i < |m| && IsMerged(m[i]) ==> saved[i] == m[i])
      && DenseOrders(saved)
      && |listing| == |newOrder|
      && (forall p :: 0 <= p < |listing| ==> listing[p].id == newOrder[p] && listing[p].order == Some(p + 1))
  {
    var saved := AssignOrders(m, newOrder);
    AssignOrdersFrame(m, newOrder);
    ReorderDense(m, newOrder);
    ReorderListing(m, newOrder);
    DenseListing(saved);
  }

  /** The guard compares sets, so a list that repeats an id passes it, and the repeated id keeps
      its last position: sending a valid list followed by its first id again is accepted, and
      leaves that upload numbered one past the number of uploads. */
  lemma {:induction false} RepeatedIdBreaksOrder(m: seq<Item>, ids: seq<string>)
    requires UniqueIds(m) && Distinct(ids) && SameUnmergedIds(m, ids) && ids != []
    ensures var r := ReorderAudio(m, ids + [ids[0]]);
      && r.Ok?
      && (exists i :: 0 <= i < |m| && IsUnmerged(r.value.0[i]) && r.value.0[i].order == Some(|ids| + 1))
      && !DenseOrders(r.value.0)
  {
    var ids' := ids + [ids[0]];
    RepeatKeepsElements(ids);
    assert ids[0] in UnmergedIds(m);
    var i :| 0 <= i < |m| && IsUnmerged(m[i]) && m[i].id == ids[0];
    ListedAt(m, ids', i);
    LastIndexSnoc(ids', ids[0]);
    var r := AssignOrders(m, ids');
    AssignOrdersKeys(m, ids');
    SameUnmergedCount(m, r);
    UnmergedIdsCount(m);
    DistinctElements(ids);
    assert IsUnmerged(r[i]) && r[i].order == Some(|ids| + 1) && UnmergedCount(r) == |ids|;
  }

  lemma {:induction false} RepeatKeepsElements(ids: seq<string>)
    requires ids != []
    ensures Elements(ids + [ids[0]]) == Elements(ids)
  {
    assert forall x :: x in ids + [ids[0]] <==> x in ids;
  }
}
