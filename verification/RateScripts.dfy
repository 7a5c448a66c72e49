/**
 * The three Redis scripts in their own form: loops that change the sorted sets
 * of one agent in place. Each is proved to leave exactly the sets, and return
 * exactly the reply, of the functions RateReservations reasons about.
 */
module RateScripts {
  import opened Common
  import opened PublishQuota
  import opened RateReservations

  lemma TakeOneMore<T>(s: seq<T>, i: nat)
    requires i < |s|
    ensures s[..i + 1] != [] && s[..i + 1][..|s[..i + 1]| - 1] == s[..i] && s[..i + 1][|s[..i + 1]| - 1] == s[i]
  {
  }

  function Listed(members: seq<Member>): set<Member> {
    set m | m in members
  }

  class RateWindow {
    var total: ZSet
    var participation: ZSet
    var focus: ZSet

    constructor ()
      ensures Snapshot() == Keys(ZSet(map[], 0), ZSet(map[], 0), ZSet(map[], 0))
    {
      total, participation, focus := ZSet(map[], 0), ZSet(map[], 0), ZSet(map[], 0);
    }

    ghost function Snapshot(): Keys
      reads this
    {
      Keys(total, participation, focus)
    }

    /** ZREMRANGEBYSCORE on the three sets. */
    method Prune(now: int)
      modifies this
      ensures Snapshot() == Keys(Kept(old(total), now), Kept(old(participation), now), Kept(old(focus), now))
    {
      total := ZSet(Pruned(total, now), total.expireAt);
      participation := ZSet(Pruned(participation, now), participation.expireAt);
      focus := ZSet(Pruned(focus, now), focus.expireAt);
    }

    /** Counts the members each set would gain. */
    method CountAdditions(batch: seq<Entry>) returns (addTotal: nat, addParticipation: nat, addFocus: nat)
      ensures addTotal == AddCount(total.scores, batch, None)
      ensures addParticipation == AddCount(participation.scores, batch, Some(Participation))
      ensures addFocus == AddCount(focus.scores, batch, Some(Focus))
    {
      addTotal, addParticipation, addFocus := 0, 0, 0;
      for i := 0 to |batch|
        invariant addTotal == AddCount(total.scores, batch[..i], None)
        invariant addParticipation == AddCount(participation.scores, batch[..i], Some(Participation))
        invariant addFocus == AddCount(focus.scores, batch[..i], Some(Focus))
      {
        TakeOneMore(batch, i);
        var e := batch[i];
        if e.member !in total.scores { addTotal := addTotal + 1; }
        if e.surface == Participation && e.member !in participation.scores {
          addParticipation := addParticipation + 1;
        } else if e.surface == Focus && e.member !in focus.scores {
          addFocus := addFocus + 1;
        }
      }
      assert batch[..|batch|] == batch;
    }

    /** Lengthens the retry time to the moment the boundary member of one set leaves the window. */
    method IncludeRetry(z: ZSet, overflow: int, now: int, retry: int, found: bool) returns (longer: int, any: bool)
      ensures longer == Longest(retry, BoundaryWait(z.scores, overflow, now))
      ensures any <==> found || BoundaryWait(z.scores, overflow, now).Some?
    {
      longer, any := retry, found;
      if overflow > 0 && overflow <= |z.scores.Keys| {
        var boundary := RankScore(z.scores, overflow - 1);
        any := true;
        longer := Max(retry, WINDOW - (now - boundary));
      }
    }

    method RecordAdditions(now: int, batch: seq<Entry>)
      modifies this
      ensures total == ZSet(AddAll(old(total).scores, batch, None, now), old(total).expireAt)
      ensures participation == ZSet(AddAll(old(participation).scores, batch, Some(Participation), now),
                                    old(participation).expireAt)
      ensures focus == ZSet(AddAll(old(focus).scores, batch, Some(Focus), now), old(focus).expireAt)
    {
      for i := 0 to |batch|
        invariant total == ZSet(AddAll(old(total).scores, batch[..i], None, now), old(total).expireAt)
        invariant participation
            == ZSet(AddAll(old(participation).scores, batch[..i], Some(Participation), now),
                    old(participation).expireAt)
        invariant focus == ZSet(AddAll(old(focus).scores, batch[..i], Some(Focus), now), old(focus).expireAt)
      {
        TakeOneMore(batch, i);
        var e := batch[i];
        if e.member !in total.scores { total := total.(scores := total.scores[e.member := now]); }
        if e.surface == Participation {
          if e.member !in participation.scores {
            participation := participation.(scores := participation.scores[e.member := now]);
          }
        } else {
          if e.member !in focus.scores { focus := focus.(scores := focus.scores[e.member := now]); }
        }
      }
      assert batch[..|batch|] == batch;
    }

    method Admit(now: int, batch: seq<Entry>) returns (reply: AdmitReply)
      modifies this
      ensures (Snapshot(), reply) == RateReservations.Admit(old(Snapshot()), now, batch)
    {
      hide AddAll, AddCount, BoundaryWait, Pruned;
      Prune(now);
      var addTotal, addParticipation, addFocus := CountAdditions(batch);
      var nextTotal := |total.scores.Keys| + addTotal;
      var nextParticipation := |participation.scores.Keys| + addParticipation;
      var nextFocus := |focus.scores.Keys| + addFocus;
      if nextTotal > TOTAL_LIMIT || nextParticipation > PARTICIPATION_LIMIT || nextFocus > FOCUS_LIMIT {
        var retry, found := 1, false;
        retry, found := IncludeRetry(total, nextTotal - TOTAL_LIMIT, now, retry, found);
        retry, found := IncludeRetry(participation, nextParticipation - PARTICIPATION_LIMIT, now, retry, found);
        retry, found := IncludeRetry(focus, nextFocus - FOCUS_LIMIT, now, retry, found);
        if !found { retry := WINDOW; }
        reply := AdmitReply(false, retry,
                            QuotaLeft(|total.scores.Keys|, |participation.scores.Keys|, |focus.scores.Keys|));
      } else {
        RecordAdditions(now, batch);
        SetExpiry(now);
        reply := AdmitReply(true, 0, QuotaLeft(nextTotal, nextParticipation, nextFocus));
      }
    }

    method SetExpiry(now: int)
      modifies this
      ensures total == old(total).(expireAt := now + WINDOW + KEY_SLACK)
      ensures participation == old(participation).(expireAt := now + WINDOW + KEY_SLACK)
      ensures focus == old(focus).(expireAt := now + WINDOW + KEY_SLACK)
    {
      total := total.(expireAt := now + WINDOW + KEY_SLACK);
      participation := participation.(expireAt := now + WINDOW + KEY_SLACK);
      focus := focus.(expireAt := now + WINDOW + KEY_SLACK);
    }

    /** ZREM of every member from every set. */
    method Release(now: int, members: seq<Member>)
      modifies this
      ensures Snapshot() == RateReservations.Release(old(Snapshot()), now, Listed(members))
    {
      var t, p, f := Alive(total, now), Alive(participation, now), Alive(focus, now);
      for i := 0 to |members|
        invariant Snapshot() == old(Snapshot())
        invariant t == Alive(total, now) - Listed(members[..i])
        invariant p == Alive(participation, now) - Listed(members[..i])
        invariant f == Alive(focus, now) - Listed(members[..i])
      {
        TakeOneMore(members, i);
        assert Listed(members[..i + 1]) == Listed(members[..i]) + {members[i]} by {
          assert members[..i + 1] == members[..i] + [members[i]];
        }
        t, p, f := t - {members[i]}, p - {members[i]}, f - {members[i]};
      }
      assert members[..|members|] == members;
      total, participation, focus := total.(scores := t), participation.(scores := p), focus.(scores := f);
    }

    /** DEL of the three sets, then ZADD of every committed row of the window. */
    method Reconcile(now: int, rows: seq<Row>)
      modifies this
      ensures Snapshot() == RateReservations.Reconcile(now, rows)
    {
      total, participation, focus := ZSet(map[], 0), ZSet(map[], 0), ZSet(map[], 0);
      for i := 0 to |rows|
        invariant total.scores == RowScores(rows[..i], None)
        invariant participation.scores == RowScores(rows[..i], Some(Participation))
        invariant focus.scores == RowScores(rows[..i], Some(Focus))
      {
        TakeOneMore(rows, i);
        var r := rows[i];
        var member := Member(r.clientId, None);
        total := total.(scores := total.scores[member := r.createdAt]);
        if r.surface == Participation {
          participation := participation.(scores := participation.scores[member := r.createdAt]);
        } else {
          focus := focus.(scores := focus.scores[member := r.createdAt]);
        }
      }
      assert rows[..|rows|] == rows;
      SetExpiry(now);
    }
  }
}
