/** The heart of the machine and the loop of the heart beater: the steps of a heart are turns of the loop. */
module HeartLoop {
  import opened Common
  import opened Ids
  import opened Memstore
  import opened Hearts
  import opened HeartTiming
  import opened Presence
  import opened FailedHearts

  /**
   The turns of a heart so far are turns that the loop takes: all but the last go on; the last one ends the loop exactly
   when the goroutine has ended, and a write that has committed is the last turn.
   */
  ghost predicate TurnsInv(h: Heart) {
    && (forall i :: 0 <= i < |h.turns| - 1 ==> GoesOn(h.turns[i]))
    && (h.pc.Starting? ==> h.turns == [])
    && (h.pc.Done? ==> h.turns != [])
    && (h.turns != [] ==> (GoesOn(h.turns[|h.turns| - 1]) <==> !h.pc.Done?))
    && ((h.pc.Setting? && h.committed) || h.pc.Waiting? ==> h.turns != [])
  }

  /** The last write and the number of writes, read off the turns. */
  ghost predicate WritesInv(h: Heart) {
    && h.commits == Written(h.turns)
    && (h.last.None? ==> forall i :: 0 <= i < |h.turns| ==> h.turns[i].outcome.Refused?)
    && (h.last.Some? ==> exists j: nat :: WroteLast(h.turns, |h.turns|, j) && h.turns[j].now == h.last.value)
  }

  function Written(turns: seq<Turn>): nat {
    if turns == [] then 0
    else Written(turns[..|turns| - 1]) + if turns[|turns| - 1].outcome.Refused? then 0 else 1
  }

  lemma WrittenAppend(turns: seq<Turn>, t: Turn)
    ensures Written(turns + [t]) == Written(turns) + if t.outcome.Refused? then 0 else 1
  {
    assert (turns + [t])[..|turns|] == turns;
  }

  lemma WrittenWithLast(turns: seq<Turn>, outcome: SetOutcome, thenStop: bool)
    requires turns != [] && !turns[|turns| - 1].outcome.Refused? && !outcome.Refused?
    ensures Written(WithLast(turns, outcome, thenStop)) == Written(turns)
  {
    var n := |turns| - 1;
    assert WithLast(turns, outcome, thenStop)[..n] == turns[..n];
  }

  lemma ApplyKeepsTurns(h: Heart, now: int, a: HeartTiming.Action)
    requires HeartTiming.Enabled(h, now, a) && TurnsInv(h)
    ensures TurnsInv(HeartTiming.Apply(h, now, a))
  {
  }

  lemma ApplyKeepsWrites(h: Heart, now: int, a: HeartTiming.Action)
    requires HeartTiming.Enabled(h, now, a) && TurnsInv(h) && WritesInv(h)
    ensures WritesInv(HeartTiming.Apply(h, now, a))
  {
    var h' := HeartTiming.Apply(h, now, a);
    match a
    case Commits => TurnAdded(h, now, Stored, h');
    case Fails => if h.committed { TurnMarked(h, ReplyLost, false, h'); } else { TurnAdded(h, now, Refused, h'); }
    case TakesStop => TurnMarked(h, Stored, true, h');
    case _ =>
  }

  lemma TurnAdded(h: Heart, now: int, outcome: SetOutcome, h': Heart)
    requires WritesInv(h) && h'.turns == h.turns + [Turn(now, outcome, false)]
    requires h'.last == (if outcome.Refused? then h.last else Some(now))
    requires h'.commits == h.commits + (if outcome.Refused? then 0 else 1)
    ensures WritesInv(h')
  {
    var n, turns' := |h.turns|, h.turns + [Turn(now, outcome, false)];
    WrittenAppend(h.turns, Turn(now, outcome, false));
    if !outcome.Refused? {
      assert WroteLast(turns', n + 1, n);
    } else if h.last.Some? {
      var j: nat :| WroteLast(h.turns, n, j) && h.turns[j].now == h.last.value;
      assert WroteLast(turns', n + 1, j);
    }
  }

  lemma TurnMarked(h: Heart, outcome: SetOutcome, thenStop: bool, h': Heart)
    requires WritesInv(h) && h.turns != [] && !h.turns[|h.turns| - 1].outcome.Refused? && !outcome.Refused?
    requires h'.turns == WithLast(h.turns, outcome, thenStop) && h'.last == h.last && h'.commits == h.commits
    ensures WritesInv(h')
  {
    WrittenWithLast(h.turns, outcome, thenStop);
    LastStays(h.turns, outcome, thenStop);
  }

  /** Marking the last turn does not change which turn wrote last. */
  lemma LastStays(turns: seq<Turn>, outcome: SetOutcome, thenStop: bool)
    requires turns != [] && !turns[|turns| - 1].outcome.Refused? && !outcome.Refused?
    ensures var turns' := WithLast(turns, outcome, thenStop);
            forall j: nat :: WroteLast(turns, |turns|, j)
              ==> WroteLast(turns', |turns'|, j) && turns'[j].now == turns[j].now
  {
    var turns' := WithLast(turns, outcome, thenStop);
    forall j: nat | WroteLast(turns, |turns|, j)
      ensures WroteLast(turns', |turns'|, j) && turns'[j].now == turns[j].now
    {
      assert j == |turns| - 1;
    }
  }

  lemma MoveKeepsTurns(h: Heart, now: int, h': Heart, now': int)
    requires Move(h, now, h', now') && TurnsInv(h) && WritesInv(h)
    ensures TurnsInv(h') && WritesInv(h')
  {
    if a :| now' == now && HeartTiming.Enabled(h, now, a) && h' == HeartTiming.Apply(h, now, a) {
      ApplyKeepsTurns(h, now, a);
      ApplyKeepsWrites(h, now, a);
    }
  }

  lemma {:induction false} TurnsOverRun(tr: seq<State>, i: nat, sid: string, g: GoId)
    requires IsRun(tr) && i < |tr| && HasHeart(tr[i], sid, g)
    ensures TurnsInv(HeartOf(tr[i], sid, g)) && WritesInv(HeartOf(tr[i], sid, g))
  {
    if 0 < i {
      HeartAt(tr, i - 1, sid, g);
      if HasHeart(tr[i - 1], sid, g) {
        TurnsOverRun(tr, i - 1, sid, g);
        MoveKeepsTurns(HeartOf(tr[i - 1], sid, g), tr[i - 1].now, HeartOf(tr[i], sid, g), tr[i].now);
      }
    }
  }

  /**
   In every state of every run the turns of a heart are exactly turns that the loop of the heart beater takes, the loop
   has ended exactly when the goroutine has, and with no other writer the entry of the user is the one that this loop
   leaves in an empty store.
   */
  lemma HeartIsLoop(tr: seq<State>, i: nat, sid: string, g: GoId)
    requires IsRun(tr) && i < |tr| && HasHeart(tr[i], sid, g) && SoleWriter(tr[i], sid, g)
    ensures var s, h := tr[i], HeartOf(tr[i], sid, g);
            && Takes(h.turns, |h.turns|)
            && (h.pc.Done? <==> h.turns != [] && !GoesOn(h.turns[|h.turns| - 1]))
            && Lookup(s.db, s.prefix, CONNECTIONS, String(h.user))
               == Lookup(BeatRun(map[], s.prefix, h.user, sid, h.turns), s.prefix, CONNECTIONS, String(h.user))
  {
    var s, h := tr[i], HeartOf(tr[i], sid, g);
    TurnsOverRun(tr, i, sid, g);
    EntryIsLastWrite(tr, i, sid, g);
    if h.last.Some? {
      var j: nat :| WroteLast(h.turns, |h.turns|, j) && h.turns[j].now == h.last.value;
      EntryAfterTurns(map[], s.prefix, h.user, sid, h.turns, |h.turns|, j);
    } else {
      NothingWritten(map[], s.prefix, h.user, sid, h.turns, |h.turns|);
    }
  }

  /** With no other writer the entry of a user is the last write of the heart. */
  lemma EntryIsLastWrite(tr: seq<State>, i: nat, sid: string, g: GoId)
    requires IsRun(tr) && i < |tr| && HasHeart(tr[i], sid, g) && SoleWriter(tr[i], sid, g)
    ensures var s, h := tr[i], HeartOf(tr[i], sid, g);
            Lookup(s.db, s.prefix, CONNECTIONS, String(h.user))
            == match h.last
               case None => None
               case Some(t) => Some(Entry(ConnectionJSON(sid), t + HEARTBEAT_TTL))
  {
    var s, h := tr[i], HeartOf(tr[i], sid, g);
    HistoryAt(tr, i);
    assert LastInv(s, h) && EntryInv(s, h.user);
    var c := LastCommit(s.hist, h.user);
    if c.Some? {
      assert CommitInv(s, c.value);
      assert c.value.server == sid && c.value.go == g && h.last.Some? && c.value.time == h.last.value;
    }
  }
}
