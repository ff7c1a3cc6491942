/** Whole delta synchronisations: a client asks again and again from its last `throughSeq` while the log grows. */
module DeltaSyncRuns {
  import opened Prelude
  import opened DeltaSync

  /** One answered call: the log it was answered from, the limit it asked for, and the answer. */
  datatype Round = Round(log: seq<Event>, limit: nat, delta: V3Delta)

  function Cursor(start: int, rounds: seq<Round>): int {
    if rounds == [] then start else rounds[|rounds| - 1].delta.throughSeq
  }

  /** Everything the client has been sent. */
  function Held(rounds: seq<Round>): seq<Event> {
    if rounds == [] then [] else Held(rounds[..|rounds| - 1]) + rounds[|rounds| - 1].delta.events
  }

  /** Each call resumes at the previous `throughSeq` and is answered, without recovery, from a log that only grows. */
  ghost predicate Run(start: int, rounds: seq<Round>, o: Options) {
    rounds == [] || (
      var n := |rounds| - 1;
      && Run(start, rounds[..n], o)
      && IsLog(rounds[n].log) && (n > 0 ==> rounds[n - 1].log <= rounds[n].log)
      && V3DeltaOf(rounds[n].log, Cursor(start, rounds[..n]), rounds[n].limit, o, rounds[n].delta))
  }

  /** The log's events with seqs in (lo, hi]. */
  function Between(log: seq<Event>, lo: int, hi: int): seq<Event> {
    Below(After(log, lo), hi + 1)
  }

  lemma BetweenShape(log: seq<Event>, lo: int, hi: int)
    requires Ascending(log)
    ensures Ascending(Between(log, lo, hi))
    ensures forall e :: e in Between(log, lo, hi) <==> e in log && lo < e.seqNo <= hi
  {
    AfterShape(log, lo);
    BelowShape(After(log, lo), hi + 1);
  }

  lemma GrowthIsLater(log: seq<Event>, grown: seq<Event>, i: nat)
    requires IsLog(grown) && log <= grown && |log| <= i < |grown|
    ensures grown[i].seqNo > Last(log)
  {
    if log != [] {
      assert grown[|log| - 1].seqNo < grown[i].seqNo;
    }
  }

  lemma BetweenStable(log: seq<Event>, grown: seq<Event>, lo: int, hi: int)
    requires IsLog(log) && IsLog(grown) && log <= grown && hi <= Last(log)
    ensures Between(log, lo, hi) == Between(grown, lo, hi)
  {
    BetweenShape(log, lo, hi);
    BetweenShape(grown, lo, hi);
    forall e | e in grown && e.seqNo <= hi ensures e in log {
      var i :| 0 <= i < |grown| && grown[i] == e;
      if i >= |log| {
        GrowthIsLater(log, grown, i);
        assert false;
      }
      assert log[i] == e;
    }
    AscendingUnique(Between(log, lo, hi), Between(grown, lo, hi));
  }

  lemma AfterSplit(log: seq<Event>, afterSeq: int, n: nat)
    requires IsLog(log) && 0 < n <= |After(log, afterSeq)|
    ensures After(log, After(log, afterSeq)[n - 1].seqNo) == After(log, afterSeq)[n..]
  {
    var due := After(log, afterSeq);
    var through := due[n - 1].seqNo;
    AfterShape(log, afterSeq);
    AfterShape(log, through);
    assert due[n - 1] in due;
    forall e ensures e in due[n..] <==> e in log && e.seqNo > through {
      if e in log && e.seqNo > through {
        var i :| 0 <= i < |due| && due[i] == e;
        assert due[n..][i - n] == e;
      }
      if e in due[n..] {
        assert e in due;
      }
    }
    AscendingUnique(After(log, through), due[n..]);
  }

  lemma BetweenExtends(log: seq<Event>, lo: int, cursor: int, n: nat)
    requires IsLog(log) && lo <= cursor && n <= |After(log, cursor)|
    ensures Between(log, lo, cursor) + After(log, cursor)[..n] ==
            Between(log, lo, if n == 0 then cursor else After(log, cursor)[n - 1].seqNo)
  {
    var due := After(log, cursor);
    var front := Between(log, lo, cursor);
    AfterShape(log, cursor);
    BetweenShape(log, lo, cursor);
    if n > 0 {
      var through := due[n - 1].seqNo;
      var all := front + due[..n];
      assert due[n - 1] in due;
      BetweenShape(log, lo, through);
      forall i, j | 0 <= i < j < |all| ensures all[i].seqNo < all[j].seqNo {
        if i < |front| && j >= |front| {
          assert front[i] in front && due[j - |front|] in due;
        }
      }
      forall e ensures e in all <==> e in log && lo < e.seqNo <= through {
        assert e in all <==> e in front || e in due[..n];
        PrefixBySeq(due, n, e);
      }
      AscendingUnique(all, Between(log, lo, through));
    }
  }

  /** What the client holds is the log between where it started and where it stands: nothing missing, twice or out of
      order. */
  lemma {:induction false} HeldIsExact(start: int, rounds: seq<Round>, o: Options)
    requires Sound(o) && Run(start, rounds, o)
    ensures start <= Cursor(start, rounds)
    ensures rounds == [] ==> Held(rounds) == []
    ensures rounds != [] ==>
      var log := rounds[|rounds| - 1].log;
      Cursor(start, rounds) <= Last(log) && Mirrors(Held(rounds), Between(log, start, Cursor(start, rounds)), o)
  {
    if rounds != [] {
      var n := |rounds| - 1;
      var earlier := rounds[..n];
      var r := rounds[n];
      HeldIsExact(start, earlier, o);
      var cursor := Cursor(start, earlier);
      var due := After(r.log, cursor);
      AfterShape(r.log, cursor);
      DueEndsTheLog(r.log, cursor);
      assert Mirrors(r.delta.events, due[..|r.delta.events|], o);
      BetweenExtends(r.log, start, cursor, |r.delta.events|);
      if n > 0 {
        assert earlier[n - 1] == rounds[n - 1];
        BetweenStable(rounds[n - 1].log, r.log, start, cursor);
      } else {
        NothingBetween(r.log, start);
      }
      MirrorsAppend(Held(earlier), Between(r.log, start, cursor), r.delta.events, due[..|r.delta.events|], o);
    }
  }

  lemma NothingBetween(log: seq<Event>, seqNo: int)
    requires IsLog(log)
    ensures Between(log, seqNo, seqNo) == []
  {
    BetweenShape(log, seqNo, seqNo);
    AscendingUnique(Between(log, seqNo, seqNo), []);
  }

  /** A client that is behind always moves forward, and `caughtUp` is never claimed early. */
  lemma EveryRoundAdvances(log: seq<Event>, cursor: int, limit: nat, o: Options, v: V3Delta)
    requires IsLog(log) && V3DeltaOf(log, cursor, limit, o, v)
    ensures After(log, cursor) != [] <==> v.throughSeq > cursor
    ensures v.caughtUp ==> v.throughSeq == Last(log) || log == []
    ensures |After(log, v.throughSeq)| == |After(log, cursor)| - |v.events|
  {
    var due := After(log, cursor);
    AfterShape(log, cursor);
    DueEndsTheLog(log, cursor);
    if due != [] {
      AfterSplit(log, cursor, |v.events|);
      assert due[|v.events| - 1] in due;
    }
  }

  /** `hasMore` at the end of the log: exactly when the only event due was too large to send whole. */
  lemma ShellAsksAgain(log: seq<Event>, cursor: int, limit: nat, o: Options, v: V3Delta)
    requires IsLog(log) && V3DeltaOf(log, cursor, limit, o, v)
    ensures v.throughSeq == v.lastSeq && v.hasMore <==> |After(log, cursor)| == 1 && Oversized(After(log, cursor), o)
  {
    var due := After(log, cursor);
    AfterShape(log, cursor);
    DueEndsTheLog(log, cursor);
  }

  ghost predicate Settled(rounds: seq<Round>, log: seq<Event>) {
    forall i :: 0 <= i < |rounds| ==> rounds[i].log == log
  }

  lemma {:induction false} Remaining(start: int, rounds: seq<Round>, log: seq<Event>, o: Options)
    requires IsLog(log) && Run(start, rounds, o) && Settled(rounds, log)
    ensures |After(log, Cursor(start, rounds))| <= if |rounds| <= |After(log, start)| then
      |After(log, start)| - |rounds| else 0
  {
    if rounds != [] {
      var n := |rounds| - 1;
      Remaining(start, rounds[..n], log, o);
      EveryRoundAdvances(log, Cursor(start, rounds[..n]), rounds[n].limit, o, rounds[n].delta);
    }
  }

  lemma NothingDue(log: seq<Event>, cursor: int, limit: nat, o: Options, v: V3Delta)
    requires IsLog(log) && cursor >= -1 && After(log, cursor) == [] && V3DeltaOf(log, cursor, limit, o, v)
    ensures v.caughtUp && v.throughSeq == Last(log)
  {
    DueEndsTheLog(log, cursor);
  }

  /** Against a log that has stopped growing, one call more than there are events due ends caught up, and so does every
      later one. */
  lemma SettledRunCatchesUp(start: int, rounds: seq<Round>, log: seq<Event>, o: Options)
    requires Sound(o) && IsLog(log) && start >= -1
    requires Run(start, rounds, o) && Settled(rounds, log) && |rounds| > |After(log, start)|
    ensures rounds[|rounds| - 1].delta.caughtUp && Cursor(start, rounds) == Last(log)
  {
    var n := |rounds| - 1;
    var cursor := Cursor(start, rounds[..n]);
    HeldIsExact(start, rounds[..n], o);
    Remaining(start, rounds[..n], log, o);
    assert rounds[n].log == log;
    hide V3DeltaOf, After;
    NothingDue(log, cursor, rounds[n].limit, o, rounds[n].delta);
  }

  lemma {:induction false} RunSplits(start: int, early: seq<Round>, late: seq<Round>, o: Options)
    requires Run(start, early + late, o)
    ensures Run(start, early, o) && Run(Cursor(start, early), late, o)
    ensures Cursor(start, early + late) == Cursor(Cursor(start, early), late)
    decreases |late|
  {
    var all := early + late;
    if late == [] {
      assert all == early;
    } else {
      var n, m := |all| - 1, |late| - 1;
      assert all[..n] == early + late[..m];
      RunSplits(start, early, late[..m], o);
    }
  }

  lemma WholeTail(log: seq<Event>, start: int)
    requires IsLog(log)
    ensures Between(log, start, Last(log)) == After(log, start)
  {
    AfterShape(log, start);
    BetweenShape(log, start, Last(log));
    assert forall e :: e in log ==> e.seqNo <= Last(log);
    AscendingUnique(Between(log, start, Last(log)), After(log, start));
  }

  /** The convergence theorem: however the log grew during the first calls, once it stops the client holds all of it
      after at most one call more than there were events due. */
  lemma ConvergesOnceGrowthStops(start: int, early: seq<Round>, late: seq<Round>, log: seq<Event>, o: Options)
    requires Sound(o) && IsLog(log) && start >= -1
    requires Run(start, early + late, o) && Settled(late, log) && |late| > |After(log, Cursor(start, early))|
    ensures (early + late)[|early + late| - 1].delta.caughtUp
    ensures Mirrors(Held(early + late), After(log, start), o) && Seqs(Held(early + late)) == Seqs(After(log, start))
  {
    hide V3DeltaOf, After, Between, Mirrors, Held, Run;
    var all := early + late;
    RunSplits(start, early, late, o);
    HeldIsExact(start, early, o);
    SettledRunCatchesUp(Cursor(start, early), late, log, o);
    HeldIsExact(start, all, o);
    assert all[|all| - 1] == late[|late| - 1];
    WholeTail(log, start);
    MirrorsSeqs(Held(all), After(log, start), o);
  }
}
