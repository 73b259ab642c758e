/**
 * ASSUMPTION, not part of the shown code. The `/api/reserve` handler
 * (backend/server.js:223) names a daterange exclusion constraint as the source of
 * error 23P01, but the schema is not part of this model. This module assumes the
 * usual form of such a constraint,
 *   EXCLUDE USING gist (daterange(start_date, end_date) WITH &&),
 * with PostgreSQL's default half-open bounds `[start, end)`. Nothing in the
 * handlers depends on it: they take the insert's outcome as given. It is only
 * used to state what the reservations table looks like if the assumption holds.
 */
module ExclusionAssumption {
  import opened Tables

  /** Both dates are days; the assumption speaks only of such rows. */
  predicate Known(r: Reservation) {
    r.start.Some? && r.end.Some?
  }

  /** `daterange(s, e)` is empty when `s == e`; an empty range overlaps nothing. */
  predicate NonEmpty(r: Reservation) {
    Known(r) && r.start.value < r.end.value
  }

  /** `&&` on two half-open ranges: they share at least one night. */
  predicate Overlap(a: Reservation, b: Reservation) {
    NonEmpty(a) && NonEmpty(b) && a.start.value < b.end.value && b.start.value < a.end.value
  }

  /** No two rows of the table share a night. */
  ghost predicate Disjoint(rows: seq<Reservation>) {
    forall i, j :: 0 <= i < j < |rows| ==> !Overlap(rows[i], rows[j])
  }

  /** SQLSTATE 22000, raised by `daterange(s, e)` when `e < s`. */
  const RangeBoundsError := "22000"

  /** Under the assumption: what inserting `r` into `rows` does. */
  function AssumedInsert(rows: seq<Reservation>, r: Reservation): (o: InsertOutcome<()>)
    requires Known(r)
    ensures o.Failed? && o.code == ExclusionViolation <==>
      r.start.value <= r.end.value && exists i :: 0 <= i < |rows| && Overlap(rows[i], r)
    ensures o.Inserted? ==> forall i :: 0 <= i < |rows| ==> !Overlap(rows[i], r)
  {
    if r.end.value < r.start.value then Failed(RangeBoundsError)
    else if exists i :: 0 <= i < |rows| && Overlap(rows[i], r) then Failed(ExclusionViolation)
    else Inserted(())
  }

  /** An insert the assumed constraint admits keeps the table free of overlaps. */
  lemma AssumedInsertKeepsDisjoint(rows: seq<Reservation>, r: Reservation)
    requires Known(r) && Disjoint(rows)
    requires AssumedInsert(rows, r).Inserted?
    ensures Disjoint(rows + [r])
  {
  }

  /** The same non-empty interval admitted once is refused the second time as a conflict. */
  lemma SameIntervalTwiceConflicts(rows: seq<Reservation>, r: Reservation, r2: Reservation)
    requires NonEmpty(r) && AssumedInsert(rows, r).Inserted?
    requires r2.start == r.start && r2.end == r.end
    ensures AssumedInsert(rows + [r], r2) == Failed(ExclusionViolation)
  {
    assert (rows + [r])[|rows|] == r;
    assert Overlap((rows + [r])[|rows|], r2);
  }

  /** A zero-night interval (`end == start`, which `/reserve` lets through) never conflicts. */
  lemma ZeroNightsNeverConflict(rows: seq<Reservation>, r: Reservation)
    requires Known(r) && r.start.value == r.end.value
    ensures AssumedInsert(rows, r) == Inserted(())
  {
  }
}
