/**
 * The dashboard's in-memory collections (components/DashboardPage.tsx, `saveData` and
 * `handleConfirmDelete`): inserting with a fresh id, merging an edit into the stored record, and
 * removing by id. Each operation is a function on one collection; the dashboard class applies it
 * to the collection its `type` selects.
 */
module Store {
  import opened Wrappers
  import opened Values

  /** No two records of the collection share an id. */
  ghost predicate UniqueIds(recs: seq<Rec>)
  {
    forall i, j :: 0 <= i < j < |recs| ==> recs[i].id != recs[j].id
  }

  /** `Math.max(0, ...recs.map(i => i.id || 0))`. */
  function MaxId(recs: seq<Rec>): (m: int)
    ensures m >= 0
    ensures forall i :: 0 <= i < |recs| ==> recs[i].id <= m
    ensures m == 0 || exists i :: 0 <= i < |recs| && recs[i].id == m
  {
    if recs == [] then 0
    else
      var rest := MaxId(recs[1..]);
      assert forall i :: 1 <= i < |recs| ==> recs[i] == recs[1..][i - 1];
      if recs[0].id > rest then recs[0].id else rest
  }

  /** The id a new record receives: one more than the largest id, and at least 1. */
  function NextId(recs: seq<Rec>): (n: int)
    ensures n >= 1
    ensures forall i :: 0 <= i < |recs| ==> recs[i].id < n
  {
    MaxId(recs) + 1
  }

  /** `[...prev, { ...itemData, id: newId }]`. */
  function Insert(recs: seq<Rec>, fields: map<string, Value>): seq<Rec>
  {
    recs + [Rec(NextId(recs), fields)]
  }

  /** `{ ...item, ...itemData }`: the edit's properties win, the others are kept. */
  function Merge(r: Rec, fields: map<string, Value>): (m: Rec)
    ensures m.id == r.id
    ensures m.fields.Keys == r.fields.Keys + fields.Keys
    ensures forall k :: k in fields ==> m.fields[k] == fields[k]
    ensures forall k :: k in r.fields && k !in fields ==> m.fields[k] == r.fields[k]
  {
    Rec(r.id, r.fields + fields)
  }

  /** `prev.map(item => item.id === id ? { ...item, ...itemData } : item)`. */
  function Update(recs: seq<Rec>, id: int, fields: map<string, Value>): (r: seq<Rec>)
    ensures |r| == |recs|
    ensures forall i :: 0 <= i < |recs| && recs[i].id == id ==> r[i] == Merge(recs[i], fields)
    ensures forall i :: 0 <= i < |recs| && recs[i].id != id ==> r[i] == recs[i]
  {
    if recs == [] then []
    else [if recs[0].id == id then Merge(recs[0], fields) else recs[0]] + Update(recs[1..], id, fields)
  }

  /** `prev.filter(item => item.id !== id)`. */
  function Remove(recs: seq<Rec>, id: int): (r: seq<Rec>)
    ensures |r| <= |recs|
  {
    if recs == [] then []
    else (if recs[0].id == id then [] else [recs[0]]) + Remove(recs[1..], id)
  }

  /** The generic save of one collection: an edit when the data carries an id, else an insert. */
  function Save(recs: seq<Rec>, data: ItemData): seq<Rec>
  {
    match data.id
    case Some(id) => Update(recs, id, data.fields)
    case None => Insert(recs, data.fields)
  }

  /** Number of records with the given id. */
  function CountId(recs: seq<Rec>, id: int): nat
  {
    if recs == [] then 0 else (if recs[0].id == id then 1 else 0) + CountId(recs[1..], id)
  }

  /**
   * An insert appends exactly one record, leaves the earlier ones as they were, and gives the new
   * record an id no earlier record has, keeping ids unique.
   */
  lemma InsertFresh(recs: seq<Rec>, fields: map<string, Value>)
    ensures var r := Insert(recs, fields);
      && |r| == |recs| + 1
      && r[..|recs|] == recs
      && r[|recs|].fields == fields
      && r[|recs|].id >= 1
      && (forall i :: 0 <= i < |recs| ==> recs[i].id != r[|recs|].id)
    ensures UniqueIds(recs) ==> UniqueIds(Insert(recs, fields))
  {
    assert Insert(recs, fields)[..|recs|] == recs;
  }

  /** Editing an id no record has leaves the collection exactly as it was. */
  lemma UpdateAbsent(recs: seq<Rec>, id: int, fields: map<string, Value>)
    requires forall i :: 0 <= i < |recs| ==> recs[i].id != id
    ensures Update(recs, id, fields) == recs
  {
  }

  /** An edit never changes any record's id, so it keeps ids unique. */
  lemma UpdateKeepsIds(recs: seq<Rec>, id: int, fields: map<string, Value>)
    ensures forall i :: 0 <= i < |recs| ==> Update(recs, id, fields)[i].id == recs[i].id
    ensures UniqueIds(recs) ==> UniqueIds(Update(recs, id, fields))
  {
  }

  /** Saving keeps ids unique, whichever of the two paths it takes. */
  lemma SavePreservesUnique(recs: seq<Rec>, data: ItemData)
    requires UniqueIds(recs)
    ensures UniqueIds(Save(recs, data))
  {
    match data.id
    case Some(id) => UpdateKeepsIds(recs, id, data.fields);
    case None => InsertFresh(recs, data.fields);
  }

  /** A record survives a removal exactly when its id differs from the removed one. */
  lemma {:induction false} RemoveMembers(recs: seq<Rec>, id: int, x: Rec)
    ensures x in Remove(recs, id) <==> x in recs && x.id != id
  {
    if recs != [] {
      RemoveMembers(recs[1..], id, x);
      assert recs == [recs[0]] + recs[1..];
    }
  }

  /** Removal works record by record, so the survivors keep their relative order. */
  lemma {:induction false} RemoveAppend(a: seq<Rec>, b: seq<Rec>, id: int)
    ensures Remove(a + b, id) == Remove(a, id) + Remove(b, id)
  {
    if a == [] {
      assert a + b == b;
    } else {
      assert (a + b)[1..] == a[1..] + b;
      RemoveAppend(a[1..], b, id);
    }
  }

  /** Removal drops exactly the records carrying the id. */
  lemma {:induction false} RemoveLength(recs: seq<Rec>, id: int)
    ensures |Remove(recs, id)| == |recs| - CountId(recs, id)
  {
    if recs != [] {
      RemoveLength(recs[1..], id);
    }
  }

  /** With unique ids an id occurs at most once. */
  lemma {:induction false} UniqueCount(recs: seq<Rec>, id: int)
    requires UniqueIds(recs)
    ensures CountId(recs, id) == (if exists i :: 0 <= i < |recs| && recs[i].id == id then 1 else 0)
  {
    if recs != [] {
      var tail := recs[1..];
      assert UniqueIds(tail) by {
        forall i, j | 0 <= i < j < |tail| ensures tail[i].id != tail[j].id {
          assert tail[i] == recs[i + 1] && tail[j] == recs[j + 1];
        }
      }
      UniqueCount(tail, id);
      assert forall i :: 1 <= i < |recs| ==> recs[i] == tail[i - 1];
      if recs[0].id == id {
        assert forall i :: 0 <= i < |tail| ==> tail[i].id != id by {
          forall i | 0 <= i < |tail| ensures tail[i].id != id {
            assert tail[i] == recs[i + 1];
          }
        }
      }
    }
  }

  /**
   * Deleting a stored record from a collection with unique ids removes exactly that one record;
   * deleting an id that is not stored changes nothing.
   */
  lemma RemoveUnique(recs: seq<Rec>, id: int)
    requires UniqueIds(recs)
    ensures (exists i :: 0 <= i < |recs| && recs[i].id == id) ==> |Remove(recs, id)| == |recs| - 1
    ensures (forall i :: 0 <= i < |recs| ==> recs[i].id != id) ==> Remove(recs, id) == recs
  {
    UniqueCount(recs, id);
    RemoveLength(recs, id);
    if forall i :: 0 <= i < |recs| ==> recs[i].id != id {
      RemoveAbsent(recs, id);
    }
  }

  lemma {:induction false} RemoveAbsent(recs: seq<Rec>, id: int)
    requires forall i :: 0 <= i < |recs| ==> recs[i].id != id
    ensures Remove(recs, id) == recs
  {
    if recs != [] {
      assert forall i :: 0 <= i < |recs[1..]| ==> recs[1..][i] == recs[i + 1];
      RemoveAbsent(recs[1..], id);
      assert recs == [recs[0]] + recs[1..];
    }
  }

  /** Removal keeps ids unique: the survivors are records of the collection, in order. */
  lemma {:induction false} RemovePreservesUnique(recs: seq<Rec>, id: int)
    requires UniqueIds(recs)
    ensures UniqueIds(Remove(recs, id))
  {
    if recs != [] {
      var tail := recs[1..];
      assert UniqueIds(tail) by {
        forall i, j | 0 <= i < j < |tail| ensures tail[i].id != tail[j].id {
          assert tail[i] == recs[i + 1] && tail[j] == recs[j + 1];
        }
      }
      RemovePreservesUnique(tail, id);
      var rt := Remove(tail, id);
      if recs[0].id != id {
        forall k | 0 <= k < |rt| ensures rt[k].id != recs[0].id {
          RemoveMembers(tail, id, rt[k]);
          var m :| 0 <= m < |tail| && tail[m] == rt[k];
          assert tail[m] == recs[m + 1];
        }
        var r := [recs[0]] + rt;
        assert Remove(recs, id) == r;
        forall i, j | 0 <= i < j < |r| ensures r[i].id != r[j].id {
          assert r[j] == rt[j - 1];
          if i > 0 {
            assert r[i] == rt[i - 1];
          }
        }
      }
    }
  }

  /** Records numbered 1, 2, 3, ... in order have unique ids. */
  lemma NumberedUnique(recs: seq<Rec>)
    requires forall i :: 0 <= i < |recs| ==> recs[i].id == i + 1
    ensures UniqueIds(recs)
  {
  }
}
