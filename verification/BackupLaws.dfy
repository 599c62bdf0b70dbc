/** Which backups the retention keeps, told by their times. */
module BackupLaws {
  import opened Results
  import opened Backups

  /** A quarter past the given hour, of any day. */
  predicate QuarterPast(t: int, h: int) {
    t % 86400000 == h * 3600000 + 900000
  }

  /** The scheduled instants: a quarter past each of the chosen hours, every day. */
  lemma ScheduledIff(s: Settings, t: int)
    ensures Scheduled(s, t) <==> exists h :: 0 <= h <= 23 && (h == s.hour || h in s.extraHours) && QuarterPast(t, h)
  {
    assert t == DayStart(t) + t % DAY;
    if h :| Chosen(s, h) && t == Slot(DayStart(t), h) {
      assert QuarterPast(t, h);
    }
    if h :| 0 <= h <= 23 && (h == s.hour || h in s.extraHours) && QuarterPast(t, h) {
      assert Chosen(s, h) && t == Slot(DayStart(t), h);
    }
  }

  /** Finished backups that are newer than this one. */
  function NewerThan(rows: seq<Row>, at: int): nat {
    if rows == [] then 0
    else NewerThan(rows[1..], at) + if rows[0].status == Done && rows[0].at > at then 1 else 0
  }

  /** No two finished backups are of one time. */
  ghost predicate DistinctTimes(rows: seq<Row>) {
    forall i, j :: 0 <= i < j < |rows| && rows[i].status == Done && rows[j].status == Done ==> rows[i].at != rows[j].at
  }

  lemma {:induction false} InsertNewer(r: Row, rows: seq<Row>, at: int)
    ensures NewerThan(Insert(r, rows), at) == NewerThan([r] + rows, at)
  {
    assert ([r] + rows)[1..] == rows;
    if rows != [] && r.at < rows[0].at {
      var rest := Insert(r, rows[1..]);
      InsertNewer(r, rows[1..], at);
      assert ([r] + rows[1..])[1..] == rows[1..];
      assert ([rows[0]] + rest)[1..] == rest;
    }
  }

  lemma {:induction false} RankedNewer(rows: seq<Row>, at: int)
    ensures NewerThan(Ranked(rows), at) == NewerThan(rows, at)
  {
    if rows != [] {
      RankedNewer(rows[1..], at);
      if rows[0].status == Done {
        InsertNewer(rows[0], Ranked(rows[1..]), at);
        assert ([rows[0]] + Ranked(rows[1..]))[1..] == Ranked(rows[1..]);
      }
    }
  }

  lemma {:induction false} NoneNewer(ranked: seq<Row>, at: int)
    requires forall i :: 0 <= i < |ranked| ==> ranked[i].at <= at
    ensures NewerThan(ranked, at) == 0
  {
    if ranked != [] {
      NoneNewer(ranked[1..], at);
    }
  }

  /** In a list of finished backups, newest first and all of different times, a place counts the newer ones. */
  lemma {:induction false} PlaceCountsNewer(ranked: seq<Row>, k: nat)
    requires k < |ranked| && forall i :: 0 <= i < |ranked| ==> ranked[i].status == Done
    requires Falling(ranked)
    ensures NewerThan(ranked, ranked[k].at) == k
  {
    if k == 0 {
      NoneNewer(ranked, ranked[0].at);
    } else {
      PlaceCountsNewer(ranked[1..], k - 1);
    }
  }

  ghost predicate Falling(rows: seq<Row>) {
    forall i, j :: 0 <= i < j < |rows| ==> rows[i].at > rows[j].at
  }

  lemma {:induction false} InsertFalls(r: Row, rows: seq<Row>)
    requires Falling(rows) && forall i :: 0 <= i < |rows| ==> rows[i].at != r.at
    ensures Falling(Insert(r, rows))
  {
    if rows != [] && r.at < rows[0].at {
      InsertFalls(r, rows[1..]);
      InsertMembers(r, rows[1..]);
      var rest := Insert(r, rows[1..]);
      forall j | 0 <= j < |rest| ensures rest[j].at < rows[0].at {
        assert rest[j] in rest;
      }
    }
  }

  lemma {:induction false} RankedFalls(rows: seq<Row>)
    requires DistinctTimes(rows)
    ensures Falling(Ranked(rows))
  {
    if rows != [] {
      RankedFalls(rows[1..]);
      RankedMembers(rows[1..]);
      if rows[0].status == Done {
        var rest := Ranked(rows[1..]);
        forall i | 0 <= i < |rest| ensures rest[i].at != rows[0].at {
          assert rest[i] in rest;
          var m :| 0 <= m < |rows[1..]| && rows[1..][m] == rest[i];
          assert rows[m + 1] == rest[i];
        }
        InsertFalls(rows[0], rest);
      }
    }
  }

  lemma RankOf(rows: seq<Row>, r: Row) returns (rank: nat)
    requires DistinctTimes(rows) && r in rows && r.status == Done
    ensures RankIs(rows, r, rank) && rank == NewerThan(rows, r.at)
  {
    RankedMembers(rows);
    RankedFalls(rows);
    rank :| rank < |Ranked(rows)| && Ranked(rows)[rank] == r;
    forall i | 0 <= i < |Ranked(rows)| ensures Ranked(rows)[i].status == Done {
      assert Ranked(rows)[i] in Ranked(rows);
    }
    PlaceCountsNewer(Ranked(rows), rank);
    RankedNewer(rows, r.at);
  }

  /**
   A finished backup survives exactly when it is the newest, or protected, or its deletion fails, or fewer
   than keepLast are newer and it is no older than keepDays, where that is set; a failed one, when it is no
   older than thirty days; a running one always.
   */
  lemma KeptIff(s: Settings, rows: seq<Row>, protect: set<Id>, now: int, stuck: set<Id>, r: Row)
    requires DistinctIds(rows) && DistinctTimes(rows) && r in rows
    ensures r in Retained(s, rows, protect, now, stuck)
       <==> match r.status
            case Done =>
              || NewerThan(rows, r.at) == 0 || r.id in protect || r.id in stuck
              || (NewerThan(rows, r.at) < s.keepLast
                  && (s.keepDays == 0 || now <= s.keepDays * 86400000 || now - r.at <= s.keepDays * 86400000))
            case Failed => now - r.at <= 2592000000
            case Running => true
  {
    var rank := 0;
    if r.status == Done {
      rank := RankOf(rows, r);
    }
    Survivors(s, rows, protect, now, stuck, r, rank);
    hide Retained, NewerThan;
  }
}
