/** The identities of a sandbox (deploy/sandbox/install/enroll.py, select_layout): a free user
    number and a free block of subordinate numbers, each the lowest there is. */
module Layout {
  import opened Bytes
  import opened Sets

  const BLOCK: nat := 65536
  const BLOCKS: nat := 65534 // the multiples of BLOCK that leave a block below 2^32

  // One line of /etc/subuid or /etc/subgid.
  datatype Row = Ignored | Malformed | Extent(start: nat, count: nat)

  datatype Range = Range(left: nat, right: nat)

  datatype Choice = InvalidMetadata | Unavailable | Chosen(start: nat)

  predicate WellFormed(row: Row) {
    row.Ignored? || (row.Extent? && row.count > 0)
  }

  // The block from start ends before the range begins, or begins after it.
  predicate Apart(start: nat, r: Range) {
    start + BLOCK <= r.left || start >= r.right
  }

  predicate Free(start: nat, ranges: seq<Range>) {
    forall i | 0 <= i < |ranges| :: Apart(start, ranges[i])
  }

  function Ranges(rows: seq<Row>): seq<Range> {
    if rows == [] then [] else
    var row := rows[|rows| - 1];
    Ranges(rows[..|rows| - 1]) + if row.Extent? then [Range(row.start, row.start + row.count)] else []
  }

  // The block from start meets no extent of the two files.
  ghost predicate Unlisted(start: nat, rows: seq<Row>) {
    forall i | 0 <= i < |rows| && rows[i].Extent? :: start + 65536 <= rows[i].start || rows[i].start + rows[i].count <= start
  }

  lemma {:induction false} RangesMean(rows: seq<Row>, start: nat)
    ensures Free(start, Ranges(rows)) <==> Unlisted(start, rows)
  {
    if rows != [] {
      var front, last := rows[..|rows| - 1], rows[|rows| - 1];
      RangesMean(front, start);
      var ranges := Ranges(rows);
      assert last.Extent? ==> ranges[|ranges| - 1] == Range(last.start, last.start + last.count);
      assert ranges[..|Ranges(front)|] == Ranges(front);
      assert Free(start, ranges) <==> Free(start, Ranges(front)) && (last.Extent? ==> Apart(start, ranges[|ranges| - 1]));
    }
  }

  method ReadRanges(rows: seq<Row>) returns (ranges: Option<seq<Range>>)
    ensures ranges == if forall i | 0 <= i < |rows| :: WellFormed(rows[i]) then Some(Ranges(rows)) else None
  {
    var found: seq<Range> := [];
    for k := 0 to |rows|
      invariant forall i | 0 <= i < k :: WellFormed(rows[i])
      invariant found == Ranges(rows[..k])
    {
      assert rows[..k + 1][..k] == rows[..k];
      if rows[k].Extent? {
        if rows[k].count == 0 { return None; }
        found := found + [Range(rows[k].start, rows[k].start + rows[k].count)];
      } else if rows[k].Malformed? {
        return None;
      }
    }
    assert rows[..|rows|] == rows;
    return Some(found);
  }

  method IsFree(start: nat, ranges: seq<Range>) returns (free: bool)
    ensures free == Free(start, ranges)
  {
    for i := 0 to |ranges|
      invariant Free(start, ranges[..i])
    {
      if !(start + BLOCK <= ranges[i].left || start >= ranges[i].right) {
        assert !Apart(start, ranges[i]);
        return false;
      }
      assert ranges[..i + 1] == ranges[..i] + [ranges[i]];
    }
    assert ranges[..|ranges|] == ranges;
    return true;
  }

  // One of the candidates before the given one is free.
  ghost predicate AnyUnlisted(rows: seq<Row>, below: nat) {
    exists k :: 1 <= k < below && Unlisted(65536 * k, rows)
  }

  /** The block chosen is the lowest aligned one apart from every extent of both files. */
  method SelectSubordinate(rows: seq<Row>) returns (choice: Choice)
    ensures choice == InvalidMetadata <==> exists i :: 0 <= i < |rows| && !WellFormed(rows[i])
    ensures choice.Chosen? ==>
              exists k :: 1 <= k <= 65534 && choice.start == 65536 * k
                          && Unlisted(choice.start, rows) && !AnyUnlisted(rows, k)
    ensures choice == Unavailable ==> !AnyUnlisted(rows, 65535)
  {
    var ranges := ReadRanges(rows);
    if ranges == None { return InvalidMetadata; }
    for k: nat := 1 to BLOCKS + 1
      invariant !AnyUnlisted(rows, k)
    {
      var free := IsFree(BLOCK * k, ranges.value);
      RangesMean(rows, BLOCK * k);
      if free { return Chosen(BLOCK * k); }
    }
    return Unavailable;
  }

  // ---------- when a block is found ----------

  predicate AllWellFormed(rows: seq<Row>) {
    forall i | 0 <= i < |rows| :: WellFormed(rows[i])
  }

  function Demand(rows: seq<Row>): nat
    requires AllWellFormed(rows)
  {
    if rows == [] then 0 else
    var row := rows[|rows| - 1];
    Demand(rows[..|rows| - 1]) + if row.Extent? then (row.count - 1) / 65536 + 2 else 0
  }

  function Blocked(r: Range): set<nat> {
    set k: nat | k <= BLOCKS && 1 <= k && !Apart(BLOCK * k, r)
  }

  ghost function Listed(rows: seq<Row>): set<nat> {
    set k: nat | k <= BLOCKS && 1 <= k && !Unlisted(65536 * k, rows)
  }

  function Interval(low: nat, size: nat): (ks: set<nat>)
    ensures |ks| == size && forall k: nat :: k in ks <==> low <= k < low + size
  {
    if size == 0 then {} else Interval(low, size - 1) + {low + size - 1}
  }

  // A range of n numbers meets at most (n - 1) / 65536 + 2 aligned blocks.
  lemma BlockedFew(r: Range)
    requires r.left < r.right
    ensures |Blocked(r)| <= (r.right - r.left - 1) / BLOCK + 2
  {
    var low, size := r.left / BLOCK, (r.right - r.left - 1) / BLOCK + 2;
    forall k | k in Blocked(r) ensures k in Interval(low, size) {
    }
    Fewer(Blocked(r), Interval(low, size));
  }

  lemma {:induction false} ListedFew(rows: seq<Row>)
    requires AllWellFormed(rows)
    ensures |Listed(rows)| <= Demand(rows)
    decreases |rows|
  {
    if rows == [] {
      assert Listed(rows) == {};
    } else {
      var front, row := rows[..|rows| - 1], rows[|rows| - 1];
      ListedFew(front);
      var last := if row.Extent? then Blocked(Range(row.start, row.start + row.count)) else {};
      if row.Extent? { BlockedFew(Range(row.start, row.start + row.count)); }
      forall k | k in Listed(rows) ensures k in Listed(front) + last {
        if Unlisted(BLOCK * k, front) {
          assert forall i | 0 <= i < |front| :: rows[i] == front[i];
        }
      }
      Fewer(Listed(rows), Listed(front) + last);
      assert |Listed(front) + last| <= |Listed(front)| + |last|;
    }
  }

  /** A block is found whenever the extents together can block fewer than all candidates. */
  lemma EnoughRoom(rows: seq<Row>)
    requires AllWellFormed(rows) && Demand(rows) < 65534
    ensures AnyUnlisted(rows, 65535)
  {
    ListedFew(rows);
    if !AnyUnlisted(rows, BLOCKS + 1) {
      forall k | k in Interval(1, BLOCKS) ensures k in Listed(rows) {
        assert !Unlisted(65536 * k, rows);
      }
      Fewer(Interval(1, BLOCKS), Listed(rows));
    }
  }

  // ---------- the user number ----------

  /** The lowest number from 2401 to 65533 that no user and no group has. */
  method SelectIdentity(occupied: set<nat>) returns (selected: Option<nat>)
    ensures selected.Some? ==>
              2401 <= selected.value < 65534 && selected.value !in occupied
              && forall v | 2401 <= v < selected.value :: v in occupied
    ensures selected == None <==> forall v | 2401 <= v < 65534 :: v in occupied
  {
    for v: nat := 2401 to 65534
      invariant forall u | 2401 <= u < v :: u in occupied
    {
      if v !in occupied { return Some(v); }
    }
    return None;
  }
}
