/**
 Seals as sets of rows: what a commit would preview for them, and seals built to
 fill every hole of a record, or to open one.
 */
module Seals {
  import opened Options
  import opened Naming
  import opened Ledger
  import opened Drain

  /** The ledger admits the manifest of these rows as its next window. */
  predicate Sealable(ledger: seq<Manifest>, p: Id, rows: set<Row>) {
    Admit(ledger, ManifestOf(p, |ledger|, rows)).None?
  }

  /** The watermark a commit of these rows would carry. */
  function Preview(ledger: seq<Manifest>, p: Id, rows: set<Row>): Option<int> {
    Watermark(ledger + [ManifestOf(p, |ledger|, rows)])
  }

  /** The holes of a coverage, as a coverage. */
  function Holes(cov: set<RowId>): set<RowId> {
    set id <- cov, j | 1 <= j < id.num && RowId(id.origin, j) !in cov :: RowId(id.origin, j)
  }

  lemma HolesFillGaps(cov: set<RowId>)
    ensures GapFree(cov + Holes(cov), {}) && Holes(cov) * cov == {}
    ensures forall h <- Holes(cov) :: h.num != 0
  {
    var all := cov + Holes(cov);
    forall id <- all, j | 1 <= j < id.num ensures Ledger.Accounted(all, {}, id.origin, j) {
      var top := id;
      if id !in cov {
        var up, k :| up in cov && 1 <= k < up.num && RowId(up.origin, k) == id;
        top := up;
      }
      assert top in cov && top.origin == id.origin && 1 <= j < top.num;
      assert RowId(id.origin, j) !in cov ==> RowId(top.origin, j) in Holes(cov);
    }
  }

  /** A coverage is gap-free under a loss ledger exactly when every one of its holes is excused there. */
  lemma GapFreeExactlyWhen(cov: set<RowId>, losses: set<RowId>)
    ensures GapFree(cov, losses) <==> Holes(cov) <= losses
  {
    if GapFree(cov, losses) {
      forall h <- Holes(cov) ensures h in losses {
        var id, j :| id in cov && 1 <= j < id.num && RowId(id.origin, j) !in cov && h == RowId(id.origin, j);
        assert Ledger.Accounted(cov, losses, id.origin, j);
      }
    }
    if Holes(cov) <= losses {
      forall id <- cov, j | 1 <= j < id.num ensures Ledger.Accounted(cov, losses, id.origin, j) {
        assert RowId(id.origin, j) !in cov ==> RowId(id.origin, j) in Holes(cov);
      }
    }
  }

  /** Rows with these identities, all at one instant. */
  function RowsAt(ids: set<RowId>, ts: int): set<Row> {
    set id <- ids :: Row(id, ts)
  }

  lemma RowsAtManifest(p: Id, w: nat, ids: set<RowId>, ts: int)
    requires ids != {}
    ensures var m := ManifestOf(p, w, RowsAt(ids, ts));
            m.window == w && m.coverage == ids && m.eventMax == ts
  {
    var rows := RowsAt(ids, ts);
    assert Ids(rows) == ids by {
      forall id <- ids ensures id in Ids(rows) {
        assert Row(id, ts) in rows;
      }
    }
    var id :| id in ids;
    assert Row(id, ts) in rows;
    assert forall r <- rows :: r.ts == ts;
    LatestExists(rows);
    assert IsLatest(rows, LatestTs(rows));
  }

  /** An origin the coverage has never heard of. */
  lemma {:induction false} LongerOrigin(cov: set<RowId>) returns (n: nat)
    ensures forall id <- cov :: |id.origin| < n && id.num < n
    decreases |cov|
  {
    n := 0;
    if cov != {} {
      var id :| id in cov;
      n := LongerOrigin(cov - {id});
      n := n + |id.origin| + id.num + 1;
    }
  }

  function OriginOf(n: nat): (o: Id)
    ensures |o| == n
  {
    seq(n, _ => 0)
  }

  lemma AdmitsFresh(ledger: seq<Manifest>, p: Id, ids: set<RowId>, ts: int)
    requires ids != {} && ids * Coverage(ledger) == {} && forall id <- ids :: id.num != 0
    ensures Sealable(ledger, p, RowsAt(ids, ts))
    ensures Preview(ledger, p, RowsAt(ids, ts)) ==
            if GapFree(Coverage(ledger) + ids, {})
            then Some(if ledger == [] then ts else Max(MaxEvent(ledger), ts)) else Watermark(ledger)
  {
    var m := ManifestOf(p, |ledger|, RowsAt(ids, ts));
    RowsAtManifest(p, |ledger|, ids, ts);
    Snoc(ledger, m);
    WatermarkAfter(ledger, m);
  }

  /** A seal that leaves the record without a hole, at any chosen instant. */
  lemma FillingSeal(ledger: seq<Manifest>, p: Id, ts: int) returns (rows: set<Row>)
    ensures Sealable(ledger, p, rows)
    ensures Preview(ledger, p, rows) == Some(if ledger == [] then ts else Max(MaxEvent(ledger), ts))
    ensures var m := ManifestOf(p, |ledger|, rows); GapFree(Coverage(ledger) + m.coverage, {}) && m.eventMax == ts
  {
    var cov := Coverage(ledger);
    var n := LongerOrigin(cov);
    var first := RowId(OriginOf(n), 1);
    var base := cov + {first};
    HolesFillGaps(base);
    assert first !in cov;
    var ids := Holes(base) + {first};
    assert cov + ids == base + Holes(base);
    rows := RowsAt(ids, ts);
    RowsAtManifest(p, |ledger|, ids, ts);
    AdmitsFresh(ledger, p, ids, ts);
  }

  /** A seal that opens a hole, so its commit previews what the ledger already has. */
  lemma GappySeal(ledger: seq<Manifest>, p: Id) returns (rows: set<Row>)
    ensures Sealable(ledger, p, rows) && Preview(ledger, p, rows) == Watermark(ledger)
    ensures !GapFree(Coverage(ledger) + ManifestOf(p, |ledger|, rows).coverage, {})
  {
    var cov := Coverage(ledger);
    var n := LongerOrigin(cov);
    var second := RowId(OriginOf(n), 2);
    assert second !in cov && RowId(OriginOf(n), 1) !in cov + {second};
    assert !Accounted(cov + {second}, {}, second.origin, 1);
    assert !GapFree(cov + {second}, {});
    rows := RowsAt({second}, 0);
    RowsAtManifest(p, |ledger|, {second}, 0);
    AdmitsFresh(ledger, p, {second}, 0);
  }
}
