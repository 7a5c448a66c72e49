/** The publish write as it runs: hash tables built by loops, then one transaction. */
module PublishLedger {
  import opened Common
  import opened PublishQuota

  method BuildStoredHashes(rows: seq<Row>, agent: int) returns (existing: map<string, string>)
    ensures existing == StoredHashes(rows, agent)
  {
    existing := map[];
    for index := 0 to |rows|
      invariant existing == StoredHashes(rows[..index], agent)
    {
      assert rows[..index + 1][..index] == rows[..index];
      if rows[index].agent == agent {
        existing := existing[rows[index].clientId := rows[index].hash];
      }
    }
    assert rows[..|rows|] == rows;
  }

  /** Skips known items; fails at the first one whose content differs. */
  method NewPublishItems(items: seq<Draft>, existing: map<string, string>) returns (result: Option<seq<Draft>>)
    ensures result == NewItems(items, existing)
  {
    var newItems: seq<Draft> := [];
    for index := 0 to |items|
      invariant NewItems(items[..index], existing) == Some(newItems)
    {
      assert items[..index + 1][..index] == items[..index];
      var item := items[index];
      if item.clientId in existing {
        if existing[item.clientId] != item.hash {
          ConflictStays(items, existing, index + 1);
          return None;
        }
      } else {
        newItems := newItems + [item];
      }
    }
    assert items[..|items|] == items;
    return Some(newItems);
  }

  lemma {:induction false} ConflictStays(items: seq<Draft>, existing: map<string, string>, n: nat)
    requires n <= |items| && NewItems(items[..n], existing).None?
    ensures NewItems(items, existing).None?
    decreases |items|
  {
    if n == |items| {
      assert items[..n] == items;
    } else {
      assert items[..|items| - 1][..n] == items[..n];
      ConflictStays(items[..|items| - 1], existing, n);
    }
  }

  method CountSurface(items: seq<Draft>) returns (participation: int, focus: int)
    ensures participation == SurfaceCount(items, Participation) && focus == SurfaceCount(items, Focus)
  {
    participation, focus := 0, 0;
    for index := 0 to |items|
      invariant participation == SurfaceCount(items[..index], Participation)
          && focus == SurfaceCount(items[..index], Focus)
    {
      assert items[..index + 1][..index] == items[..index];
      if items[index].surface == Participation {
        participation := participation + 1;
      } else {
        focus := focus + 1;
      }
    }
    assert items[..|items|] == items;
  }

  method CollectIds(items: seq<Draft>) returns (ids: set<string>)
    ensures ids == Ids(items)
  {
    ids := {};
    for index := 0 to |items|
      invariant ids == Ids(items[..index])
    {
      assert Ids(items[..index + 1]) == Ids(items[..index]) + {items[index].clientId} by {
        assert items[..index + 1][index] == items[index];
        assert forall i | 0 <= i < index :: items[..index + 1][i] == items[..index][i];
      }
      ids := ids + {items[index].clientId};
    }
    assert items[..|items|] == items;
  }

  /** True exactly when every actual item was a candidate. */
  method ContainsAllItems(candidates: seq<Draft>, actual: seq<Draft>) returns (contained: bool)
    ensures contained <==> Ids(actual) <= Ids(candidates)
  {
    var candidateIds := CollectIds(candidates);
    for index := 0 to |actual|
      invariant forall i | 0 <= i < index :: actual[i].clientId in candidateIds
    {
      if actual[index].clientId !in candidateIds {
        assert actual[index].clientId in Ids(actual);
        return false;
      }
    }
    return true;
  }

  /**
   * The places `at`, in order, are exactly the ones of the first `n` items that were not inserted,
   * and `chosen` lists them.
   */
  ghost predicate NotInserted(items: seq<Draft>, n: nat, inserted: set<string>, at: seq<int>, chosen: seq<Draft>)
    requires n <= |items|
  {
    && |at| == |chosen|
    && (forall k | 0 <= k < |at| :: 0 <= at[k] < n && chosen[k] == items[at[k]])
    && (forall j, k | 0 <= j < k < |at| :: at[j] < at[k])
    && (forall i | 0 <= i < n :: items[i].clientId !in inserted <==> i in at)
  }

  /** The reserved items that were not inserted, each as often as it was reserved and in reservation order. */
  method ItemDifference(reserved: seq<Draft>, inserted: seq<Draft>) returns (difference: seq<Draft>)
    ensures exists at :: NotInserted(reserved, |reserved|, Ids(inserted), at, difference)
    ensures forall x :: x in difference <==> x in reserved && x.clientId !in Ids(inserted)
  {
    var insertedIds := CollectIds(inserted);
    difference := [];
    ghost var at: seq<int> := [];
    for index := 0 to |reserved|
      invariant NotInserted(reserved, index, insertedIds, at, difference)
    {
      if reserved[index].clientId !in insertedIds {
        difference, at := difference + [reserved[index]], at + [index];
      }
    }
    NotInsertedItems(reserved, insertedIds, at, difference);
  }

  lemma NotInsertedItems(items: seq<Draft>, inserted: set<string>, at: seq<int>, chosen: seq<Draft>)
    requires NotInserted(items, |items|, inserted, at, chosen)
    ensures forall x :: x in chosen <==> x in items && x.clientId !in inserted
  {
    forall x | x in chosen ensures x in items && x.clientId !in inserted {
      var k :| 0 <= k < |chosen| && chosen[k] == x;
      assert at[k] in at;
    }
    forall x | x in items && x.clientId !in inserted ensures x in chosen {
      var i :| 0 <= i < |items| && items[i] == x;
      var k :| 0 <= k < |at| && at[k] == i;
      assert chosen[k] == x;
    }
  }

  class Publications {
    var rows: seq<Row>
    var receipts: map<(int, string), Receipt>

    function Snapshot(): Ledger
      reads this
    {
      Ledger(rows, receipts)
    }

    constructor ()
      ensures Snapshot() == EMPTY
    {
      rows, receipts := [], map[];
    }

    method Write(w: WriteRequest) returns (reply: WriteReply)
      modifies this
      ensures (Snapshot(), reply) == WriteTx(old(Snapshot()), w)
    {
      if !(1 <= |w.items| <= BATCH_MAX && DistinctIds(w.items)) {
        return InvalidBatch;
      }
      if !w.lockAcquired {
        return Busy;
      }
      var existing := BuildStoredHashes(rows, w.agent);
      var filtered := NewPublishItems(w.items, existing);
      if filtered.None? {
        return Conflict;
      }
      var newItems := filtered.value;
      var covered := ContainsAllItems(w.candidates, newItems);
      if !covered {
        return Busy;
      }
      var cutoff := w.now - WINDOW;
      var total := Count(rows, Filter(w.agent, cutoff, None, None));
      var participation := Count(rows, Filter(w.agent, cutoff, None, Some(Participation)));
      var focus := Count(rows, Filter(w.agent, cutoff, None, Some(Focus)));
      var newParticipation, newFocus := CountSurface(newItems);
      if newItems != [] {
        if total + |newItems| > TOTAL_LIMIT || participation + newParticipation > PARTICIPATION_LIMIT
           || focus + newFocus > FOCUS_LIMIT {
          return RateLimited(QuotaLeft(total, participation, focus));
        }
        if w.sources == SourceForbidden {
          return Forbidden;
        }
        if w.sources == ContextChanged {
          return Conflict;
        }
      }
      if (w.agent, w.key) in receipts {
        // The receipt insert violates its primary key, so the item insert rolls back too.
        return KeyTaken;
      }
      rows := rows + RowsOf(w.agent, w.now, newItems);
      receipts := receipts[(w.agent, w.key) := Receipt(w.hash, |newItems|)];
      return Accepted(newItems, QuotaLeft(total + |newItems|, participation + newParticipation, focus + newFocus));
    }
  }
}
