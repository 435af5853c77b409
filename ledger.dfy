/**
 * The bot's idempotency ledger: the sqlite table `ids(key, lccn, timestamp)`.
 * A feed record whose key is already in the table was handled by an earlier run
 * and is skipped; rows older than thirty days are pruned at the end of a run.
 */
module IdLedger {
  import opened Text

  datatype Row = Row(key: string, lccn: string, timestamp: int)

  /** Thirty days, in seconds. */
  const RetentionSeconds: int := 2592000

  /** The key of a feed record: `f"{lccn}-{date_pub}-{date_update}"`. */
  function LedgerKey(lccn: string, published: string, update: string): string {
    lccn + "-" + published + "-" + update
  }

  predicate HasKey(rows: seq<Row>, key: string) {
    exists i | 0 <= i < |rows| :: rows[i].key == key
  }

  /** The rows that `DELETE FROM ids WHERE timestamp < cutoff` leaves, in table order. */
  function Retained(rows: seq<Row>, cutoff: int): seq<Row> {
    if rows == [] then []
    else if rows[0].timestamp < cutoff then Retained(rows[1..], cutoff)
    else [rows[0]] + Retained(rows[1..], cutoff)
  }

  /** The number of rows `SELECT * FROM ids WHERE timestamp < cutoff` reports. */
  function ExpiredCount(rows: seq<Row>, cutoff: int): nat {
    if rows == [] then 0
    else (if rows[0].timestamp < cutoff then 1 else 0) + ExpiredCount(rows[1..], cutoff)
  }

  class Ledger {
    var rows: seq<Row>

    /** The table as `connect_to_database` creates it when no database file exists. */
    constructor ()
      ensures rows == []
    {
      rows := [];
    }

    /** `SELECT * FROM ids WHERE key = …` followed by `len(result) == 0`. */
    method Lookup(key: string) returns (found: bool)
      ensures found <==> HasKey(rows, key)
    {
      found := false;
      var i := 0;
      while i < |rows|
        invariant 0 <= i <= |rows|
        invariant found <==> exists j | 0 <= j < i :: rows[j].key == key
      {
        if rows[i].key == key {
          found := true;
        }
        i := i + 1;
      }
    }

    /** `INSERT INTO ids(key, lccn, timestamp) VALUES(?,?,?)` with the current time. */
    method Insert(key: string, lccn: string, now: int)
      modifies this
      ensures rows == old(rows) + [Row(key, lccn, now)]
    {
      rows := rows + [Row(key, lccn, now)];
    }

    /** `prune`: delete every row older than thirty days before `now`; returns how many went. */
    method Prune(now: int) returns (deleted: nat)
      modifies this
      ensures rows == Retained(old(rows), now - RetentionSeconds)
      ensures deleted == ExpiredCount(old(rows), now - RetentionSeconds)
    {
      var cutoff := now - RetentionSeconds;
      var kept: seq<Row> := [];
      deleted := 0;
      var i := 0;
      while i < |rows|
        invariant 0 <= i <= |rows|
        invariant kept + Retained(rows[i..], cutoff) == Retained(rows, cutoff)
        invariant deleted + ExpiredCount(rows[i..], cutoff) == ExpiredCount(rows, cutoff)
      {
        assert rows[i..][1..] == rows[i + 1..];
        if rows[i].timestamp < cutoff {
          deleted := deleted + 1;
        } else {
          kept := kept + [rows[i]];
        }
        i := i + 1;
      }
      assert rows[i..] == [];
      rows := kept;
    }
  }

  // ---------------------------------------------------------------------
  // Properties of pruning
  // ---------------------------------------------------------------------

  /** A row survives pruning iff it was in the table and is not older than the cutoff. */
  lemma {:induction false} RetainedMembers(rows: seq<Row>, cutoff: int)
    ensures forall r :: r in Retained(rows, cutoff) <==> r in rows && r.timestamp >= cutoff
  {
    if rows != [] {
      RetainedMembers(rows[1..], cutoff);
      assert rows == [rows[0]] + rows[1..];
    }
  }

  /** Pruning removes exactly the expired rows: the counts add up. */
  lemma {:induction false} RetainedCount(rows: seq<Row>, cutoff: int)
    ensures |Retained(rows, cutoff)| + ExpiredCount(rows, cutoff) == |rows|
  {
    if rows != [] {
      RetainedCount(rows[1..], cutoff);
    }
  }

  /** When nothing is older than the cutoff, pruning changes nothing. */
  lemma {:induction false} RetainedAllFresh(rows: seq<Row>, cutoff: int)
    requires forall i | 0 <= i < |rows| :: rows[i].timestamp >= cutoff
    ensures Retained(rows, cutoff) == rows
    ensures ExpiredCount(rows, cutoff) == 0
  {
    if rows != [] {
      RetainedAllFresh(rows[1..], cutoff);
      assert rows == [rows[0]] + rows[1..];
    }
  }

  /** Pruning twice with the same cutoff is pruning once. */
  lemma RetainedIdempotent(rows: seq<Row>, cutoff: int)
    ensures Retained(Retained(rows, cutoff), cutoff) == Retained(rows, cutoff)
  {
    var kept := Retained(rows, cutoff);
    RetainedMembers(rows, cutoff);
    forall i | 0 <= i < |kept| ensures kept[i].timestamp >= cutoff {
      assert kept[i] in kept;
    }
    RetainedAllFresh(kept, cutoff);
  }

  // ---------------------------------------------------------------------
  // Properties of the key
  // ---------------------------------------------------------------------

  /** An LCCN holds no `-`, so the key's first `-`-separated field is the LCCN. */
  lemma KeyStartsWithLccn(lccn: string, published: string, update: string)
    requires '-' !in lccn
    ensures SplitOn(LedgerKey(lccn, published, update), '-')[0] == lccn
  {
    var rest := "-" + published + "-" + update;
    assert LedgerKey(lccn, published, update) == lccn + rest;
    SplitAppend(lccn, rest, '-');
    SplitWithoutSeparator(lccn, '-');
    SplitCons(rest, '-');
    assert rest[0] == '-';
  }

  /** Two records with keys that agree have the same LCCN. */
  lemma KeyDeterminesLccn(l1: string, p1: string, u1: string, l2: string, p2: string, u2: string)
    requires '-' !in l1 && '-' !in l2
    requires LedgerKey(l1, p1, u1) == LedgerKey(l2, p2, u2)
    ensures l1 == l2
  {
    KeyStartsWithLccn(l1, p1, u1);
    KeyStartsWithLccn(l2, p2, u2);
  }
}
