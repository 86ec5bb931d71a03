/** The zone round robin of nodeTree.next as a walk over positions (zone, index):
    which positions a number of calls visits, from any cursor
    (internal/cache/node_tree.go). */
module RoundRobin {
  import opened Api

  /** A zone: how many nodes it has and how far the cursor has come in it. */
  datatype Row = Row(size: nat, lastIndex: nat)
  {
    predicate Exhausted() { lastIndex >= size }
  }

  datatype Cursor = Cursor(rows: seq<Row>, zoneIndex: nat)

  /** Zone number and index in the zone. */
  type Position = (nat, nat)

  predicate Proper(c: Cursor) {
    |c.rows| > 0 && forall i :: 0 <= i < |c.rows| ==> c.rows[i].size > 0
  }

  /** The first zone with nodes left among the next `left` zones, in cyclic order. */
  function Find(rows: seq<Row>, zoneIndex: nat, left: nat): (r: Option<nat>)
    requires |rows| > 0
    ensures r.Some? ==> r.value < |rows| && !rows[r.value].Exhausted()
    decreases left
  {
    if left == 0 then None
    else
      var i := if zoneIndex >= |rows| then 0 else zoneIndex;
      if !rows[i].Exhausted() then Some(i) else Find(rows, i + 1, left - 1)
  }

  function ResetRows(rows: seq<Row>): seq<Row> {
    seq(|rows|, i requires 0 <= i < |rows| => rows[i].(lastIndex := 0))
  }

  /** Take the next node of zone i. */
  function Take(rows: seq<Row>, i: nat): (Position, Cursor)
    requires i < |rows|
  {
    ((i, rows[i].lastIndex), Cursor(rows[i := rows[i].(lastIndex := rows[i].lastIndex + 1)], i + 1))
  }

  /** One call of next: when every zone is exhausted the cursor is reset first. */
  function Step(c: Cursor): (Position, Cursor)
    requires Proper(c)
  {
    match Find(c.rows, c.zoneIndex, |c.rows|)
    case Some(i) => Take(c.rows, i)
    case None => Take(ResetRows(c.rows), 0)
  }

  // ---- what has been delivered ----

  ghost function All(rows: seq<Row>): set<Position> {
    set i: nat, j: nat | i < |rows| && j < rows[i].size :: (i, j)
  }

  ghost function Delivered(rows: seq<Row>): set<Position> {
    set i: nat, j: nat | i < |rows| && j < rows[i].size && j < rows[i].lastIndex :: (i, j)
  }

  /** The cursors differ only in how far they have come. */
  predicate SameSizes(a: seq<Row>, b: seq<Row>) {
    |a| == |b| && forall i :: 0 <= i < |a| ==> a[i].size == b[i].size
  }

  lemma SameSizesAll(a: seq<Row>, b: seq<Row>)
    requires SameSizes(a, b)
    ensures All(a) == All(b)
  {
  }

  /** Find fails only when none of the zones it looked at has nodes left. */
  lemma {:induction false} FindCovers(rows: seq<Row>, zoneIndex: nat, left: nat)
    requires |rows| > 0 && left <= |rows| && Find(rows, zoneIndex, left).None?
    ensures var z := if zoneIndex >= |rows| then 0 else zoneIndex;
            forall j :: 0 <= j < |rows| && (z <= j < z + left || j + |rows| < z + left) ==> rows[j].Exhausted()
    decreases left
  {
    if left > 0 {
      FindCovers(rows, (if zoneIndex >= |rows| then 0 else zoneIndex) + 1, left - 1);
    }
  }

  lemma FindNone(rows: seq<Row>, zoneIndex: nat)
    requires |rows| > 0 && Find(rows, zoneIndex, |rows|).None?
    ensures forall i :: 0 <= i < |rows| ==> rows[i].Exhausted()
  {
    FindCovers(rows, zoneIndex, |rows|);
  }

  lemma TakeDelivers(rows: seq<Row>, i: nat)
    requires i < |rows| && !rows[i].Exhausted()
    ensures var (p, c) := Take(rows, i);
            && p in All(rows) && p !in Delivered(rows)
            && SameSizes(rows, c.rows)
            && Delivered(c.rows) == Delivered(rows) + {p}
  {
    var (p, c) := Take(rows, i);
    SameSizesAll(rows, c.rows);
  }

  lemma ResetDelivered(rows: seq<Row>)
    ensures SameSizes(rows, ResetRows(rows)) && Delivered(ResetRows(rows)) == {}
  {
  }

  /** One call delivers one position that was not delivered before; a pass that is
      complete starts over. */
  lemma StepDelivers(c: Cursor)
    requires Proper(c)
    ensures var (p, d) := Step(c);
            && SameSizes(c.rows, d.rows) && Proper(d)
            && p in All(c.rows)
            && (Delivered(c.rows) != All(c.rows) ==>
                  p !in Delivered(c.rows) && Delivered(d.rows) == Delivered(c.rows) + {p})
            && (Delivered(c.rows) == All(c.rows) ==> Delivered(d.rows) == {p})
  {
    match Find(c.rows, c.zoneIndex, |c.rows|) {
      case Some(i) =>
        TakeDelivers(c.rows, i);
      case None =>
        FindNone(c.rows, c.zoneIndex);
        assert Delivered(c.rows) == All(c.rows);
        ResetDelivered(c.rows);
        SameSizesAll(c.rows, ResetRows(c.rows));
        TakeDelivers(ResetRows(c.rows), 0);
    }
  }

  // ---- runs ----

  /** The cursor after n calls. */
  function After(c: Cursor, n: nat): (d: Cursor)
    requires Proper(c)
    ensures Proper(d)
    decreases n
  {
    if n == 0 then c
    else
      var d := After(c, n - 1);
      StepDelivers(d);
      Step(d).1
  }

  lemma {:induction false} AfterSameSizes(c: Cursor, n: nat)
    requires Proper(c)
    ensures SameSizes(c.rows, After(c, n).rows)
    decreases n
  {
    if n > 0 {
      AfterSameSizes(c, n - 1);
      StepDelivers(After(c, n - 1));
    }
  }

  /** The position that call number k visits. */
  function Visit(c: Cursor, k: nat): Position
    requires Proper(c)
  {
    Step(After(c, k)).0
  }

  function Visits(c: Cursor, n: nat): (ps: seq<Position>)
    requires Proper(c)
    ensures |ps| == n && forall k :: 0 <= k < n ==> ps[k] == Visit(c, k)
  {
    if n == 0 then [] else Visits(c, n - 1) + [Visit(c, n - 1)]
  }

  /** Repeating a move: iter(x, n) is x after n moves. */
  ghost predicate Repeats<S(!new)>(move: S -> S, iter: (S, nat) -> S) {
    && (forall x :: iter(x, 0) == x)
    && forall x, m, n: nat :: m == n + 1 ==> iter(x, m) == move(iter(x, n))
  }

  lemma {:induction false} RepeatSplits<S(!new)>(move: S -> S, iter: (S, nat) -> S, x: S, a: nat, b: nat)
    requires Repeats(move, iter)
    ensures iter(x, a + b) == iter(iter(x, a), b)
  {
    if b > 0 {
      RepeatSplits(move, iter, x, a, b - 1);
      assert a + b == (a + (b - 1)) + 1;
    }
  }

  /** A call of the cursor as a move. */
  ghost function Call(): Cursor -> Cursor { (c: Cursor) => if Proper(c) then Step(c).1 else c }

  ghost function Calls(): (Cursor, nat) -> Cursor { (c: Cursor, n: nat) => if Proper(c) then After(c, n) else c }

  lemma AfterNext(c: Cursor, n: nat)
    requires Proper(c)
    ensures After(c, n + 1) == Step(After(c, n)).1
  {
  }

  lemma CallsRepeat()
    ensures Repeats(Call(), Calls())
  {
    forall c: Cursor, m: nat, n: nat | m == n + 1
      ensures Calls()(c, m) == Call()(Calls()(c, n))
    {
      if Proper(c) {
        AfterNext(c, n);
      }
    }
  }

  lemma CallsSplit(c: Cursor, a: nat, b: nat)
    ensures Calls()(c, a + b) == Calls()(Calls()(c, a), b)
  {
    CallsRepeat();
    RepeatSplits(Call(), Calls(), c, a, b);
  }

  lemma CallsAre(c: Cursor, n: nat)
    requires Proper(c)
    ensures Calls()(c, n) == After(c, n)
  {
  }

  lemma AfterSplits(c: Cursor, a: nat, b: nat)
    requires Proper(c)
    ensures After(c, a + b) == After(After(c, a), b)
  {
    CallsSplit(c, a, b);
    CallsAre(c, a + b);
    CallsAre(c, a);
    CallsAre(After(c, a), b);
  }

  lemma VisitsSplit(c: Cursor, a: nat, b: nat)
    requires Proper(c)
    ensures Visits(c, a + b) == Visits(c, a) + Visits(After(c, a), b)
  {
    var all, first, rest := Visits(c, a + b), Visits(c, a), Visits(After(c, a), b);
    forall k | 0 <= k < b
      ensures all[a + k] == rest[k]
    {
      VisitSplits(c, a, k);
    }
    assert all == first + rest;
  }

  lemma VisitSplits(c: Cursor, a: nat, k: nat)
    requires Proper(c)
    ensures Visit(c, a + k) == Visit(After(c, a), k)
  {
    AfterSplits(c, a, k);
  }

  ghost function Elements(ps: seq<Position>): set<Position> { set p | p in ps }

  predicate Distinct(ps: seq<Position>) { forall i, j :: 0 <= i < j < |ps| ==> ps[i] != ps[j] }

  /** A chain of sets that each gain one new element. */
  ghost predicate Growing(ds: seq<set<Position>>, ps: seq<Position>) {
    && |ds| == |ps| + 1
    && (forall k :: 0 <= k < |ps| ==> ps[k] !in ds[k])
    && (forall k, j :: 0 <= k < |ps| && j == k + 1 ==> ds[j] == ds[k] + {ps[k]})
  }

  lemma ElementsStep(ps: seq<Position>, n: nat)
    requires 0 < n <= |ps|
    ensures Elements(ps[..n]) == Elements(ps[..n - 1]) + {ps[n - 1]}
  {
    assert ps[..n] == ps[..n - 1] + [ps[n - 1]];
  }

  lemma {:induction false} GrowingAdds(ds: seq<set<Position>>, ps: seq<Position>, n: nat)
    requires Growing(ds, ps) && n <= |ps|
    ensures ds[n] == ds[0] + Elements(ps[..n]) && |ds[n]| == |ds[0]| + n
  {
    if n > 0 {
      GrowingAdds(ds, ps, n - 1);
      ElementsStep(ps, n);
      assert ds[n] == ds[n - 1] + {ps[n - 1]};
    }
  }

  lemma {:induction false} GrowingKeeps(ds: seq<set<Position>>, ps: seq<Position>, i: nat, j: nat)
    requires Growing(ds, ps) && i < j <= |ps|
    ensures ds[i] <= ds[j] && ps[i] in ds[j]
    decreases j
  {
    if i < j - 1 {
      GrowingKeeps(ds, ps, i, j - 1);
    }
  }

  lemma GrowingIsFresh(ds: seq<set<Position>>, ps: seq<Position>)
    requires Growing(ds, ps)
    ensures Distinct(ps) && Elements(ps) !! ds[0]
  {
    forall i, j | 0 <= i < j < |ps|
      ensures ps[i] != ps[j]
    {
      GrowingKeeps(ds, ps, i, j);
    }
    forall j | 0 <= j < |ps|
      ensures ps[j] !in ds[0]
    {
      if j > 0 {
        GrowingKeeps(ds, ps, 0, j);
      }
    }
  }

  ghost function DeliveredAfter(c: Cursor, n: nat): set<Position>
    requires Proper(c)
  {
    Delivered(After(c, n).rows)
  }

  lemma {:induction false} WithinPassStep(c: Cursor, k: nat)
    requires Proper(c) && k < |All(c.rows)| - |Delivered(c.rows)|
    ensures Visit(c, k) !in DeliveredAfter(c, k)
    ensures DeliveredAfter(c, k + 1) == DeliveredAfter(c, k) + {Visit(c, k)}
    ensures |DeliveredAfter(c, k)| == |Delivered(c.rows)| + k
    decreases k
  {
    if k > 0 {
      WithinPassStep(c, k - 1);
    }
    AfterSameSizes(c, k);
    SameSizesAll(c.rows, After(c, k).rows);
    StepDelivers(After(c, k));
  }

  ghost function Chain(c: Cursor, n: nat): (ds: seq<set<Position>>)
    requires Proper(c)
    ensures |ds| == n + 1 && forall k :: 0 <= k <= n ==> ds[k] == DeliveredAfter(c, k)
  {
    seq(n + 1, k requires 0 <= k <= n => DeliveredAfter(c, k))
  }

  lemma ChainGrows(c: Cursor, n: nat)
    requires Proper(c) && n <= |All(c.rows)| - |Delivered(c.rows)|
    ensures Growing(Chain(c, n), Visits(c, n))
  {
    forall k | 0 <= k < n
      ensures Visit(c, k) !in DeliveredAfter(c, k)
      ensures DeliveredAfter(c, k + 1) == DeliveredAfter(c, k) + {Visit(c, k)}
    {
      WithinPassStep(c, k);
    }
  }

  lemma GrowingSummary(ds: seq<set<Position>>, ps: seq<Position>)
    requires Growing(ds, ps)
    ensures Distinct(ps) && Elements(ps) !! ds[0]
    ensures ds[|ps|] == ds[0] + Elements(ps) && |ds[|ps|]| == |ds[0]| + |ps|
  {
    GrowingAdds(ds, ps, |ps|);
    GrowingIsFresh(ds, ps);
    assert ps[..|ps|] == ps;
  }

  /** While nodes are left, n calls visit n different undelivered positions. */
  lemma RunWithinPass(c: Cursor, n: nat)
    requires Proper(c) && n <= |All(c.rows)| - |Delivered(c.rows)|
    ensures Distinct(Visits(c, n)) && Elements(Visits(c, n)) !! DeliveredAfter(c, 0)
    ensures DeliveredAfter(c, n) == DeliveredAfter(c, 0) + Elements(Visits(c, n))
    ensures |DeliveredAfter(c, n)| == |DeliveredAfter(c, 0)| + n
  {
    ChainGrows(c, n);
    GrowingSummary(Chain(c, n), Visits(c, n));
  }

  // ---- round order ----

  /** a comes before b in round-by-round zone order. */
  predicate Before(a: Position, b: Position) { a.1 < b.1 || (a.1 == b.1 && a.0 < b.0) }

  /** A set of positions that holds everything before each of its members. */
  ghost predicate Initial(s: set<Position>, all: set<Position>) {
    s <= all && forall a, b :: a in all && b in s && Before(a, b) ==> a in s
  }

  /** Where a cursor stands in round r when zone z is next: zones before z have had
      their turn. */
  predicate Synced(c: Cursor, r: nat, z: nat) {
    && z <= |c.rows|
    && (c.zoneIndex == z || (z == 0 && c.zoneIndex >= |c.rows|))
    && forall i :: 0 <= i < |c.rows| ==>
         var turns := if i < z then r + 1 else r;
         c.rows[i].lastIndex == if turns < c.rows[i].size then turns else c.rows[i].size
  }

  lemma SyncedIsInitial(c: Cursor, r: nat, z: nat)
    requires Synced(c, r, z)
    ensures Initial(Delivered(c.rows), All(c.rows))
  {
  }

  /** Searching on from a synced cursor, the zone found is next in its round, or in
      the following one. */
  lemma {:induction false} FindKeepsSync(c: Cursor, r: nat, z: nat, left: nat, i: nat) returns (r': nat)
    requires Proper(c) && Synced(c, r, z) && left <= |c.rows|
    requires Find(c.rows, c.zoneIndex, left) == Some(i)
    ensures Synced(Take(c.rows, i).1, r', i + 1)
    decreases left, if z == |c.rows| then 1 else 0
  {
    var n := |c.rows|;
    if z == n {
      r' := FindKeepsSync(Cursor(c.rows, 0), r + 1, 0, left, i);
    } else if !c.rows[z].Exhausted() {
      r' := r;
    } else {
      r' := FindKeepsSync(Cursor(c.rows, z + 1), r, z + 1, left - 1, i);
    }
  }

  ghost predicate InSync(c: Cursor) { exists r, z :: Synced(c, r, z) }

  lemma StepKeepsSync(c: Cursor)
    requires Proper(c) && (InSync(c) || Delivered(c.rows) == All(c.rows))
    ensures InSync(Step(c).1)
  {
    match Find(c.rows, c.zoneIndex, |c.rows|) {
      case Some(i) =>
        if Delivered(c.rows) == All(c.rows) {
          AllDelivered(c.rows);
        }
        var r, z :| Synced(c, r, z);
        var r' := FindKeepsSync(c, r, z, |c.rows|, i);
      case None =>
        var rows := ResetRows(c.rows);
        assert Synced(Take(rows, 0).1, 0, 1);
    }
  }

  lemma {:induction false} RunKeepsSync(c: Cursor, n: nat)
    requires Proper(c) && n > 0 && (InSync(c) || Delivered(c.rows) == All(c.rows))
    ensures InSync(After(c, n))
    decreases n
  {
    if n > 1 {
      RunKeepsSync(c, n - 1);
    }
    StepKeepsSync(After(c, n - 1));
  }

  /** Two initial sets of the same size are the same set. */
  lemma InitialUnique(a: set<Position>, b: set<Position>, all: set<Position>)
    requires Initial(a, all) && Initial(b, all) && |a| == |b|
    ensures a == b
  {
    InitialNested(a, b, all);
    InitialNested(b, a, all);
  }

  lemma InitialNested(a: set<Position>, b: set<Position>, all: set<Position>)
    requires Initial(a, all) && Initial(b, all) && |a| <= |b|
    ensures a <= b
  {
    forall x | x in a
      ensures x in b
    {
      if x !in b {
        NoSmaller(a, b, all, x);
      }
    }
  }

  lemma NoSmaller(a: set<Position>, b: set<Position>, all: set<Position>, x: Position)
    requires Initial(a, all) && Initial(b, all) && x in a - b
    ensures |b| < |a|
  {
    forall y | y in b
      ensures y in a - {x}
    {
      assert !Before(x, y);
      assert Before(y, x);
    }
    SubsetSize(b, a - {x});
  }

  lemma {:induction false} SubsetSize<T>(a: set<T>, b: set<T>)
    requires a <= b
    ensures |a| <= |b|
  {
    if a != {} {
      var x :| x in a;
      SubsetSize(a - {x}, b - {x});
    }
  }

  // ---- a full pass ----

  lemma SubsetSameSize<T>(a: set<T>, b: set<T>)
    requires a <= b && |a| == |b|
    ensures a == b
  {
    assert b == a + (b - a);
    assert |b| == |a| + |b - a|;
    assert b - a == {};
  }

  /** The calls left until every node has been delivered. */
  ghost function Left(c: Cursor): (n: nat)
    ensures n + |Delivered(c.rows)| == |All(c.rows)|
  {
    SubsetSize(Delivered(c.rows), All(c.rows));
    |All(c.rows)| - |Delivered(c.rows)|
  }

  lemma DeliveredSubset(c: Cursor, n: nat)
    requires Proper(c)
    ensures DeliveredAfter(c, n) <= All(c.rows)
  {
    AfterSameSizes(c, n);
    SameSizesAll(c.rows, After(c, n).rows);
  }

  /** The first part of a pass visits exactly what was not delivered. */
  lemma FirstPart(c: Cursor)
    requires Proper(c)
    ensures Elements(Visits(c, Left(c))) == All(c.rows) - Delivered(c.rows)
    ensures DeliveredAfter(c, Left(c)) == All(c.rows)
  {
    var n := Left(c);
    RunWithinPass(c, n);
    DeliveredSubset(c, n);
    assert DeliveredAfter(c, 0) == Delivered(c.rows);
    SubsetSameSize(DeliveredAfter(c, n), All(c.rows));
  }

  function Reset(c: Cursor): Cursor { Cursor(ResetRows(c.rows), 0) }

  lemma AllDelivered(rows: seq<Row>)
    requires Delivered(rows) == All(rows)
    ensures forall i :: 0 <= i < |rows| ==> rows[i].Exhausted()
  {
    forall i | 0 <= i < |rows|
      ensures rows[i].Exhausted()
    {
      var p: Position := (i, rows[i].lastIndex);
      assert p !in Delivered(rows);
      assert p in All(rows) <==> rows[i].lastIndex < rows[i].size;
    }
  }

  lemma StepFromExhausted(e: Cursor)
    requires Proper(e) && Delivered(e.rows) == All(e.rows)
    ensures Proper(Reset(e)) && Step(e) == Step(Reset(e))
  {
    AllDelivered(e.rows);
  }

  lemma {:induction false} RunFromExhausted(e: Cursor, n: nat)
    requires Proper(e) && Delivered(e.rows) == All(e.rows) && n > 0
    ensures Proper(Reset(e)) && After(e, n) == After(Reset(e), n)
    ensures Visit(e, n - 1) == Visit(Reset(e), n - 1)
    decreases n
  {
    if n == 1 {
      StepFromExhausted(e);
    } else {
      RunFromExhausted(e, n - 1);
    }
  }

  /** An exhausted cursor visits what a reset one visits. */
  lemma VisitsAfterReset(e: Cursor, m: nat)
    requires Proper(e) && Delivered(e.rows) == All(e.rows) && 0 < m
    ensures Proper(Reset(e)) && Visits(e, m) == Visits(Reset(e), m)
    ensures After(e, m) == After(Reset(e), m)
  {
    forall k | 0 <= k < m
      ensures Visit(e, k) == Visit(Reset(e), k)
    {
      RunFromExhausted(e, k + 1);
    }
    RunFromExhausted(e, m);
  }

  /** The second part starts over and visits an initial set of its size. */
  lemma SecondPart(e: Cursor, m: nat)
    requires Proper(e) && Delivered(e.rows) == All(e.rows) && 0 < m <= |All(e.rows)|
    ensures DeliveredAfter(e, m) == Elements(Visits(e, m)) && Distinct(Visits(e, m))
    ensures |Elements(Visits(e, m))| == m && Initial(Elements(Visits(e, m)), All(e.rows))
  {
    var f := Reset(e);
    ResetDelivered(e.rows);
    SameSizesAll(e.rows, f.rows);
    VisitsAfterReset(e, m);
    FreshPart(f, m);
    DeliveredInitial(e, m);
  }

  /** From a cursor that has delivered nothing. */
  lemma FreshPart(f: Cursor, m: nat)
    requires Proper(f) && Delivered(f.rows) == {} && m <= |All(f.rows)|
    ensures DeliveredAfter(f, m) == Elements(Visits(f, m)) && Distinct(Visits(f, m))
    ensures |Elements(Visits(f, m))| == m
  {
    RunWithinPass(f, m);
    assert DeliveredAfter(f, 0) == {};
  }

  /** What a cursor has delivered at the end of a run is an initial part of the order. */
  lemma DeliveredInitial(e: Cursor, m: nat)
    requires Proper(e) && Delivered(e.rows) == All(e.rows) && 0 < m <= |All(e.rows)|
    ensures Initial(DeliveredAfter(e, m), All(e.rows))
  {
    RunKeepsSync(e, m);
    AfterSameSizes(e, m);
    SameSizesAll(e.rows, After(e, m).rows);
    var r, z :| Synced(After(e, m), r, z);
    SyncedIsInitial(After(e, m), r, z);
  }

  /** A sequence of calls that returns every node exactly once. */
  ghost predicate Exact(ps: seq<Position>, all: set<Position>) { Distinct(ps) && Elements(ps) == all }

  lemma ExactOfParts(ps: seq<Position>, qs: seq<Position>, all: set<Position>, d: set<Position>)
    requires d <= all && Elements(ps) == all - d && Distinct(ps) && Distinct(qs)
    requires Elements(qs) <= all && |Elements(qs)| == |d|
    ensures Exact(ps + qs, all) <==> Elements(qs) == d
  {
    var s := ps + qs;
    assert Elements(s) == Elements(ps) + Elements(qs);
    DistinctPartsIff(ps, qs);
    if Exact(s, all) {
      assert Elements(qs) <= d;
      SubsetSameSize(Elements(qs), d);
    }
  }

  /** Two lists without repetition together have none if and only if they share nothing. */
  lemma DistinctPartsIff(ps: seq<Position>, qs: seq<Position>)
    requires Distinct(ps) && Distinct(qs)
    ensures Distinct(ps + qs) <==> Elements(ps) !! Elements(qs)
  {
    var s := ps + qs;
    if Elements(ps) !! Elements(qs) {
      forall i, j | 0 <= i < j < |s|
        ensures s[i] != s[j]
      {
        assert i < |ps| ==> s[i] in Elements(ps);
        assert j >= |ps| ==> s[j] in Elements(qs);
      }
    } else {
      var q :| q in ps && q in qs;
      var i, j :| 0 <= i < |ps| && ps[i] == q && 0 <= j < |qs| && qs[j] == q;
      assert s[i] == q && s[|ps| + j] == q;
    }
  }

  lemma RunInParts(c: Cursor, total: nat, n: nat, m: nat)
    requires Proper(c) && total == n + m
    ensures Visits(c, total) == Visits(c, n) + Visits(After(c, n), m)
    ensures After(c, total) == After(After(c, n), m)
  {
    VisitsSplit(c, n, m);
    AfterSplits(c, n, m);
  }

  /** As many calls as there are nodes return every node exactly once if and only if the
      nodes already delivered in the current pass form an initial part of the round
      order; and then they leave as delivered what was delivered before. */
  lemma FullPassIff(c: Cursor)
    requires Proper(c)
    ensures Exact(Visits(c, |All(c.rows)|), All(c.rows)) <==> Initial(Delivered(c.rows), All(c.rows))
    ensures Initial(Delivered(c.rows), All(c.rows)) ==>
      DeliveredAfter(c, |All(c.rows)|) == if Delivered(c.rows) == {} then All(c.rows) else Delivered(c.rows)
  {
    var all, d, n, m := All(c.rows), Delivered(c.rows), Left(c), |Delivered(c.rows)|;
    var e := After(c, n);
    RunInParts(c, |all|, n, m);
    RunWithinPass(c, n);
    FirstPart(c);
    AfterSameSizes(c, n);
    SameSizesAll(c.rows, e.rows);
    var qs := Visits(e, m);
    if m == 0 {
      assert Visits(c, n) + qs == Visits(c, n);
    } else {
      SubsetSize(d, all);
      SecondPart(e, m);
      ExactOfParts(Visits(c, n), qs, all, d);
      if Initial(d, all) {
        InitialUnique(Elements(qs), d, all);
      }
    }
  }

  // ---- the condition on the cursors alone ----

  function Progress(r: Row): nat { if r.lastIndex < r.size then r.lastIndex else r.size }

  /** No zone has been served that is not due: of two zones, the one with nodes left is
      not behind the other, except by one turn when it comes later in the order. */
  predicate Balanced(rows: seq<Row>) {
    forall i, j :: 0 <= i < |rows| && 0 <= j < |rows| && i != j && Progress(rows[j]) < rows[j].size ==>
      Progress(rows[i]) <= Progress(rows[j]) || (Progress(rows[i]) == Progress(rows[j]) + 1 && i < j)
  }

  lemma BalancedIffInitial(rows: seq<Row>)
    ensures Balanced(rows) <==> Initial(Delivered(rows), All(rows))
  {
    var all, d := All(rows), Delivered(rows);
    if Balanced(rows) {
      forall a, b | a in all && b in d && Before(a, b)
        ensures a in d
      {
        if a.0 != b.0 && Progress(rows[a.0]) < rows[a.0].size {
          assert Progress(rows[b.0]) <= Progress(rows[a.0]) + 1;
        }
      }
    }
    if Initial(d, all) {
      forall i, j | 0 <= i < |rows| && 0 <= j < |rows| && i != j && Progress(rows[j]) < rows[j].size
        ensures Progress(rows[i]) <= Progress(rows[j]) || (Progress(rows[i]) == Progress(rows[j]) + 1 && i < j)
      {
        if Progress(rows[i]) > Progress(rows[j]) {
          var a, b := (j, Progress(rows[j])), (i, Progress(rows[i]) - 1);
          assert a in all && b in d && a !in d;
          assert !Before(a, b);
        }
      }
    }
  }

  // ---- order of a pass ----

  lemma SyncedThroughout(c: Cursor, n: nat)
    requires Proper(c) && Synced(c, 0, 0)
    ensures Initial(DeliveredAfter(c, n), All(c.rows))
  {
    assert InSync(c);
    if n > 0 {
      RunKeepsSync(c, n);
    }
    AfterSameSizes(c, n);
    SameSizesAll(c.rows, After(c, n).rows);
    var r, z :| Synced(After(c, n), r, z);
    SyncedIsInitial(After(c, n), r, z);
  }

  lemma StartsEmpty(c: Cursor)
    requires Synced(c, 0, 0)
    ensures Delivered(c.rows) == {}
  {
  }

  /** The start of a pass: nothing delivered and the cursor at the first zone, or everything
      delivered, as a complete pass leaves it. */
  ghost predicate AtStart(c: Cursor) { Synced(c, 0, 0) || Delivered(c.rows) == All(c.rows) }

  lemma ResetIsFresh(c: Cursor)
    requires Proper(c)
    ensures Proper(Reset(c)) && Synced(Reset(c), 0, 0) && All(Reset(c).rows) == All(c.rows)
  {
    SameSizesAll(c.rows, Reset(c).rows);
  }

  /** From the start of a pass, the calls go round by round and, in a round, zone by zone. */
  lemma PassInOrder(c: Cursor, i: nat, j: nat)
    requires Proper(c) && AtStart(c) && i < j < |All(c.rows)|
    ensures Before(Visit(c, i), Visit(c, j))
  {
    if Synced(c, 0, 0) {
      FreshPassInOrder(c, i, j);
    } else {
      ResetIsFresh(c);
      FreshPassInOrder(Reset(c), i, j);
      VisitAfterReset(c, i);
      VisitAfterReset(c, j);
    }
  }

  lemma VisitAfterReset(e: Cursor, k: nat)
    requires Proper(e) && Delivered(e.rows) == All(e.rows)
    ensures Proper(Reset(e)) && Visit(e, k) == Visit(Reset(e), k)
  {
    RunFromExhausted(e, k + 1);
  }

  /** A complete pass from the start of one ends at the start of the next. */
  lemma PassEndsAtStart(c: Cursor)
    requires Proper(c) && AtStart(c)
    ensures AtStart(After(c, |All(c.rows)|))
  {
    var n := |All(c.rows)|;
    AfterSameSizes(c, n);
    SameSizesAll(c.rows, After(c, n).rows);
    if Synced(c, 0, 0) {
      StartsEmpty(c);
    }
    FullPassIff(c);
  }

  lemma FreshPassInOrder(c: Cursor, i: nat, j: nat)
    requires Proper(c) && Synced(c, 0, 0) && i < j < |All(c.rows)|
    ensures Before(Visit(c, i), Visit(c, j))
  {
    var n := |All(c.rows)|;
    StartsEmpty(c);
    ChainGrows(c, n);
    var ds, ps := Chain(c, n), Visits(c, n);
    SyncedThroughout(c, j);
    GrowingKeeps(ds, ps, i, j);
    assert ps[i] in ds[j] && ps[j] !in ds[j];
    DeliveredSubset(c, j);
    DeliveredSubset(c, j + 1);
    assert ps[j] in ds[j + 1];
    assert !Before(ps[j], ps[i]);
  }
}
