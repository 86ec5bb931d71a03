/** Resources reserved for preempting pods, kept as conditions of the node
    (general_purpose_scheduler/helper.go, framework/plugins/noderesources/fit.go). */
module Reservations {
  import opened Api
  import opened Sequences

  const INT64_MAX := 9223372036854775807
  const INT64_MIN := -9223372036854775808

  type int64 = x: int | INT64_MIN <= x <= INT64_MAX

  // ---- numbers as text ----

  predicate IsDigit(c: char) { '0' <= c <= '9' }

  function DigitChar(d: nat): char
    requires d < 10
  {
    ((d + 48) as char)
  }

  function DigitValue(c: char): nat
    requires IsDigit(c)
  {
    c as int - 48
  }

  /** The decimal digits of a number. */
  function Digits(n: nat): string {
    if n < 10 then [DigitChar(n)] else Digits(n / 10) + [DigitChar(n % 10)]
  }

  /** The verb %d. */
  function Decimal(x: int): string { if x < 0 then "-" + Digits(-x) else Digits(x) }

  predicate AllDigits(s: string) { forall i :: 0 <= i < |s| ==> IsDigit(s[i]) }

  function Value(s: string): nat
    requires AllDigits(s)
  {
    if s == [] then 0 else Value(s[..|s| - 1]) * 10 + DigitValue(s[|s| - 1])
  }

  /** strconv.Atoi: an optional sign and digits, in the range of int. */
  function Atoi(s: string): Option<int> {
    var digits := if s != [] && (s[0] == '-' || s[0] == '+') then s[1..] else s;
    if digits == [] || !AllDigits(digits) then None
    else
      var x: int := if s[0] == '-' then 0 - Value(digits) else Value(digits);
      if INT64_MIN <= x <= INT64_MAX then Some(x) else None
  }

  /** The code reads a part that is no number as zero. */
  function Amount(s: string): int { match Atoi(s) case Some(x) => x case None => 0 }

  /** strings.Split at commas. */
  function Split(s: string): (parts: seq<string>)
    ensures |parts| > 0
  {
    if s == [] then [[]]
    else
      var rest := Split(s[1..]);
      if s[0] == ',' then [[]] + rest else [[s[0]] + rest[0]] + rest[1..]
  }

  /** The reason of a reservation. */
  function Encode(cpu: int, mem: int, disk: int): string {
    Decimal(cpu) + "," + Decimal(mem) + "," + Decimal(disk)
  }

  /** getPremptionValues. */
  function PreemptionValues(s: string): (int, int, int) {
    var parts := Split(s);
    if |parts| != 3 then (0, 0, 0) else (Amount(parts[0]), Amount(parts[1]), Amount(parts[2]))
  }

  // ---- the round trip ----

  lemma {:induction false} DigitsValue(n: nat)
    ensures AllDigits(Digits(n)) && Digits(n) != [] && Value(Digits(n)) == n
  {
    if n >= 10 {
      DigitsValue(n / 10);
      var d := Digits(n / 10);
      assert (d + [DigitChar(n % 10)])[..|d|] == d;
    } else {
      assert Digits(n)[..0] == [];
    }
  }

  lemma NegativeReads(x: int)
    requires INT64_MIN <= x < 0
    ensures Atoi("-" + Digits(-x)) == Some(x)
  {
    DigitsValue(-x);
    var s := "-" + Digits(-x);
    assert s[0] == '-' && s[1..] == Digits(-x);
  }

  lemma PositiveReads(n: nat)
    requires n <= INT64_MAX
    ensures Atoi(Digits(n)) == Some(n)
  {
    DigitsValue(n);
    assert IsDigit(Digits(n)[0]);
  }

  lemma DecimalReads(x: int64)
    ensures Atoi(Decimal(x)) == Some(x)
  {
    if x < 0 {
      NegativeReads(x);
    } else {
      PositiveReads(x);
    }
  }

  predicate NoComma(s: string) { forall i :: 0 <= i < |s| ==> s[i] != ',' }

  lemma DecimalNoComma(x: int)
    ensures NoComma(Decimal(x))
  {
    var n := if x < 0 then -x else x;
    DigitsValue(n);
    forall i | 0 <= i < |Digits(n)|
      ensures Digits(n)[i] != ','
    {
      assert IsDigit(Digits(n)[i]);
    }
  }

  lemma {:induction false} SplitWhole(s: string)
    requires NoComma(s)
    ensures Split(s) == [s]
  {
    if s != [] {
      SplitWhole(s[1..]);
      assert [s[0]] + s[1..] == s;
    }
  }

  lemma {:induction false} SplitFirst(a: string, b: string)
    requires NoComma(a)
    ensures Split(a + "," + b) == [a] + Split(b)
  {
    var s := a + "," + b;
    if a == [] {
      assert s[1..] == b;
    } else {
      SplitFirst(a[1..], b);
      assert s[1..] == a[1..] + "," + b;
      assert [a[0]] + a[1..] == a;
    }
  }

  /** getPremptionValues undoes the encoding for all int64 triples. */
  lemma EncodingRoundTrip(cpu: int64, mem: int64, disk: int64)
    ensures PreemptionValues(Encode(cpu, mem, disk)) == (cpu, mem, disk)
  {
    var a, b, c := Decimal(cpu), Decimal(mem), Decimal(disk);
    DecimalNoComma(cpu);
    DecimalNoComma(mem);
    DecimalNoComma(disk);
    assert Encode(cpu, mem, disk) == a + "," + (b + "," + c);
    SplitFirst(a, b + "," + c);
    SplitFirst(b, c);
    SplitWhole(c);
    DecimalReads(cpu);
    DecimalReads(mem);
    DecimalReads(disk);
  }

  // ---- other texts ----

  /** How many commas there are. */
  function Commas(s: string): nat { if s == [] then 0 else (if s[0] == ',' then 1 else 0) + Commas(s[1..]) }

  lemma {:induction false} SplitCount(s: string)
    ensures |Split(s)| == Commas(s) + 1
  {
    if s != [] {
      SplitCount(s[1..]);
    }
  }

  /** A text that has not two commas reserves nothing. */
  lemma OtherTextReads(s: string)
    requires Commas(s) != 2
    ensures PreemptionValues(s) == (0, 0, 0)
  {
    SplitCount(s);
  }

  /** Between two commas and around them each amount is read by itself. */
  lemma PartsRead(a: string, b: string, c: string)
    requires NoComma(a) && NoComma(b) && NoComma(c)
    ensures PreemptionValues(a + "," + b + "," + c) == (Amount(a), Amount(b), Amount(c))
  {
    assert a + "," + b + "," + c == a + "," + (b + "," + c);
    SplitFirst(a, b + "," + c);
    SplitFirst(b, c);
    SplitWhole(c);
  }

  /** What is read of digits with and without a sign; nothing of a number out of range. */
  lemma DigitsRead(n: nat)
    ensures Amount(Digits(n)) == if n <= INT64_MAX then n else 0
    ensures Amount("+" + Digits(n)) == if n <= INT64_MAX then n else 0
    ensures Amount("-" + Digits(n)) == if n <= INT64_MAX + 1 then 0 - n else 0
  {
    DigitsValue(n);
    var d := Digits(n);
    assert IsDigit(d[0]);
    SignedReads("+", d, n);
    SignedReads("-", d, n);
  }

  lemma SignedReads(sign: string, d: string, n: nat)
    requires sign == "+" || sign == "-"
    requires AllDigits(d) && d != [] && Value(d) == n
    ensures Atoi(sign + d) == var x: int := if sign == "-" then 0 - n else n;
                              if INT64_MIN <= x <= INT64_MAX then Some(x) else None
  {
    assert (sign + d)[0] == sign[0] && (sign + d)[1..] == d;
  }

  /** A part with a character that is no digit, but for a sign in front, reads as nothing. */
  lemma OtherPartReads(s: string, i: nat)
    requires i < |s| && !IsDigit(s[i]) && (i == 0 ==> s[0] != '-' && s[0] != '+')
    ensures Amount(s) == 0 && Amount("") == 0 && Amount("-") == 0 && Amount("+") == 0
  {
    assert i > 0 ==> s[1..][i - 1] == s[i];
    assert "-"[1..] == [] && "+"[1..] == [];
  }

  // ---- the condition list ----

  const PREEMPTION := "Preemption"

  predicate Holds(c: NodeCondition, key: string) { c.kind == PREEMPTION && c.message == key }

  /** AddNodeStatusofPreemption: a reservation for the preemptor under the name of the
      victim. */
  function Reservation(cpu: int, mem: int, disk: int, now: int, key: string): NodeCondition {
    NodeCondition(PREEMPTION, now, Encode(cpu, mem, disk), key)
  }

  /** What the removal loop makes of the part of the list it has still to look at: a match
      is overwritten by the last element, which is then not looked at. */
  function Swept(c: seq<NodeCondition>, key: string): seq<NodeCondition>
    decreases |c|
  {
    if c == [] then []
    else if !Holds(c[0], key) then [c[0]] + Swept(c[1..], key)
    else if |c| == 1 then []
    else [c[|c| - 1]] + Swept(c[1..|c| - 1], key)
  }

  /** What the loop is going to leave when it comes to index idx and `size` elements
      count. */
  ghost function Outlook(a: seq<NodeCondition>, idx: nat, size: nat, key: string): seq<NodeCondition>
    requires size <= |a|
  {
    if idx <= size then a[..idx] + Swept(a[idx..size], key) else a[..size]
  }

  /** RemovePreemptionInfo: the loop ranges over the whole array, in which elements are
      overwritten and of which a shrinking part counts. */
  method RemovePreemptionInfo(conditions: seq<NodeCondition>, key: string) returns (left: seq<NodeCondition>)
    ensures left == Swept(conditions, key)
  {
    var a, size := conditions, |conditions|;
    assert a[0..size] == a && a[..0] == [];
    for idx := 0 to |conditions|
      invariant |a| == |conditions| && size <= |a| && idx <= size + 1
      invariant Outlook(a, idx, size, key) == Swept(conditions, key)
    {
      if size <= idx {
        OutlookEnd(a, idx, size, key);
        return a[..size];
      }
      if Holds(a[idx], key) {
        OutlookMatch(a, idx, size, key);
        a := a[idx := a[size - 1]];
        size := size - 1;
      } else {
        OutlookOther(a, idx, size, key);
      }
    }
    OutlookEnd(a, |conditions|, size, key);
    left := a[..size];
  }

  lemma OutlookEnd(a: seq<NodeCondition>, idx: nat, size: nat, key: string)
    requires size <= |a| && size <= idx
    ensures Outlook(a, idx, size, key) == a[..size]
  {
    if idx == size {
      assert a[idx..size] == [];
    }
  }

  lemma OutlookMatch(a: seq<NodeCondition>, idx: nat, size: nat, key: string)
    requires idx < size <= |a| && Holds(a[idx], key)
    ensures Outlook(a[idx := a[size - 1]], idx + 1, size - 1, key) == Outlook(a, idx, size, key)
  {
    var b, rest := a[idx := a[size - 1]], a[idx..size];
    assert b[..idx] == a[..idx];
    if idx + 1 < size {
      assert rest[1..|rest| - 1] == b[idx + 1..size - 1];
      assert b[..idx + 1] == b[..idx] + [rest[|rest| - 1]];
    } else {
      assert Swept(rest, key) == [];
    }
  }

  lemma OutlookOther(a: seq<NodeCondition>, idx: nat, size: nat, key: string)
    requires idx < size <= |a| && !Holds(a[idx], key)
    ensures Outlook(a, idx + 1, size, key) == Outlook(a, idx, size, key)
  {
    assert a[idx..size][1..] == a[idx + 1..size];
    assert a[..idx + 1] == a[..idx] + [a[idx]];
  }

  // ---- what is left ----

  /** How many conditions match. */
  function Matches(c: seq<NodeCondition>, key: string): nat {
    if c == [] then 0 else (if Holds(c[0], key) then 1 else 0) + Matches(c[1..], key)
  }

  predicate NoneHolds(c: seq<NodeCondition>, key: string) { forall i :: 0 <= i < |c| ==> !Holds(c[i], key) }

  /** None of the last n conditions matches. */
  predicate TailClear(c: seq<NodeCondition>, n: int, key: string) {
    forall i :: |c| - n <= i < |c| && 0 <= i ==> !Holds(c[i], key)
  }

  lemma {:induction false} MatchesIffHolds(c: seq<NodeCondition>, key: string)
    ensures Matches(c, key) <= |c| && (Matches(c, key) == 0 <==> NoneHolds(c, key))
    decreases |c|
  {
    if c != [] {
      MatchesIffHolds(c[1..], key);
      assert forall i :: 0 < i < |c| ==> c[i] == c[1..][i - 1];
    }
  }

  lemma {:induction false} MatchesInit(c: seq<NodeCondition>, key: string)
    requires c != []
    ensures Matches(c, key) == Matches(c[..|c| - 1], key) + if Holds(c[|c| - 1], key) then 1 else 0
    decreases |c|
  {
    if |c| > 1 {
      MatchesInit(c[1..], key);
      assert c[1..][..|c| - 2] == c[..|c| - 1][1..];
    }
  }

  /** The conditions of c are those of d behind a first one. */
  lemma TailBehind(c: seq<NodeCondition>, d: seq<NodeCondition>, n: int, key: string)
    requires |c| == |d| + 1 && c[1..] == d && n <= |d|
    ensures TailClear(c, n, key) <==> TailClear(d, n, key)
  {
    assert forall i :: 0 < i < |c| ==> c[i] == d[i - 1];
    assert forall i :: 0 <= i < |d| ==> d[i] == c[i + 1];
  }

  lemma TailAround(c: seq<NodeCondition>, d: seq<NodeCondition>, n: int, key: string)
    requires |c| == |d| + 2 && c[1..|c| - 1] == d && 0 <= n <= |d| && !Holds(c[|c| - 1], key)
    ensures TailClear(c, n, key) <==> TailClear(d, n - 1, key)
  {
    assert forall i :: 0 < i < |c| - 1 ==> c[i] == d[i - 1];
    assert forall i :: 0 <= i < |d| ==> d[i] == c[i + 1];
  }

  /** A removal clears all of m matching conditions if and only if none of the last m - 1
      conditions matches: a matching element that is copied forward is passed over. */
  lemma {:induction false} SweptClearIff(c: seq<NodeCondition>, key: string)
    ensures NoneHolds(Swept(c, key), key) <==> TailClear(c, Matches(c, key) - 1, key)
    decreases |c|
  {
    MatchesIffHolds(c, key);
    if c == [] {
    } else if !Holds(c[0], key) {
      SweptClearIff(c[1..], key);
      MatchesIffHolds(c[1..], key);
      TailBehind(c, c[1..], Matches(c, key) - 1, key);
      PrependNone(c[0], Swept(c[1..], key), key);
    } else if |c| > 1 {
      SweptClearIff(c[1..|c| - 1], key);
      MatchedFirst(c, key);
    }
  }

  lemma MatchedFirst(c: seq<NodeCondition>, key: string)
    requires |c| > 1 && Holds(c[0], key)
    requires var mid := c[1..|c| - 1]; NoneHolds(Swept(mid, key), key) <==> TailClear(mid, Matches(mid, key) - 1, key)
    ensures NoneHolds(Swept(c, key), key) <==> TailClear(c, Matches(c, key) - 1, key)
  {
    var last, mid := c[|c| - 1], c[1..|c| - 1];
    MatchesIffHolds(mid, key);
    MatchesInit(c[1..], key);
    assert c[1..][..|c| - 2] == mid && c[1..][|c| - 2] == last;
    assert Matches(c, key) == 1 + Matches(mid, key) + if Holds(last, key) then 1 else 0;
    assert Swept(c, key) == [last] + Swept(mid, key);
    PrependNone(last, Swept(mid, key), key);
    if Holds(last, key) {
      assert Matches(c, key) - 1 >= 1 && Holds(c[|c| - 1], key);
    } else {
      TailAround(c, mid, Matches(mid, key), key);
    }
  }

  lemma PrependNone(x: NodeCondition, s: seq<NodeCondition>, key: string)
    ensures NoneHolds([x] + s, key) <==> !Holds(x, key) && NoneHolds(s, key)
  {
    assert ([x] + s)[0] == x && forall i :: 0 <= i < |s| ==> ([x] + s)[i + 1] == s[i];
  }

  lemma {:induction false} SweptNone(c: seq<NodeCondition>, key: string)
    requires NoneHolds(c, key)
    ensures Swept(c, key) == c
    decreases |c|
  {
    if c != [] {
      SweptNone(c[1..], key);
    }
  }

  /** A single match goes, and nothing else does. */
  lemma {:induction false} SweptOne(c: seq<NodeCondition>, p: nat, key: string)
    requires p < |c| && c[p].kind == "Preemption" && c[p].message == key
    requires forall i :: 0 <= i < |c| && i != p ==> c[i].kind != "Preemption" || c[i].message != key
    ensures multiset(Swept(c, key)) == multiset(c) - multiset{c[p]}
    decreases |c|
  {
    assert c == [c[0]] + c[1..];
    if p > 0 {
      SweptOne(c[1..], p - 1, key);
    } else if |c| > 1 {
      var last, mid := c[|c| - 1], c[1..|c| - 1];
      assert c == [c[0]] + mid + [last];
      SweptNone(mid, key);
    }
  }

  /** However many entries match, the others all stay, and of the matching ones none is
      added. */
  lemma {:induction false} SweptKeepsOthers(c: seq<NodeCondition>, key: string, x: NodeCondition)
    ensures multiset(Swept(c, key))[x] <= multiset(c)[x]
    ensures x.kind != "Preemption" || x.message != key ==> multiset(Swept(c, key))[x] == multiset(c)[x]
    decreases |c|
  {
    if c == [] {
    } else if !Holds(c[0], key) {
      SweptKeepsOthers(c[1..], key, x);
      assert c == [c[0]] + c[1..];
    } else if |c| > 1 {
      SweptKeepsOthers(c[1..|c| - 1], key, x);
      AroundMiddle(c, Swept(c[1..|c| - 1], key));
    }
  }

  lemma AroundMiddle<T>(c: seq<T>, s: seq<T>)
    requires |c| > 1
    ensures multiset(c) == multiset{c[0]} + multiset(c[1..|c| - 1]) + multiset{c[|c| - 1]}
    ensures multiset([c[|c| - 1]] + s) == multiset{c[|c| - 1]} + multiset(s)
  {
    assert c == [c[0]] + c[1..|c| - 1] + [c[|c| - 1]];
  }

  /** Two reservations with one key: the second takes the place of the first, which the loop
      has passed, and stays. */
  lemma SecondReservationStays(c: seq<NodeCondition>, key: string)
    requires |c| == 2 && Holds(c[0], key) && Holds(c[1], key)
    ensures Swept(c, key) == [c[1]]
  {
    assert c[1..|c| - 1] == [];
  }

  /** Taking back a reservation restores the conditions, whatever others were added before
      and after it under other names. */
  lemma ReservationTakenBack(c: seq<NodeCondition>, d: seq<NodeCondition>, r: NodeCondition, key: string)
    requires NoneHolds(c, key) && NoneHolds(d, key) && Holds(r, key)
    ensures multiset(Swept(c + [r] + d, key)) == multiset(c + d)
  {
    var s := c + [r] + d;
    assert s[|c|] == r;
    SweptOne(s, |c|, key);
  }

  // ---- what the scheduler counts as reserved ----

  const ELAPSED_TIME_TO_INVALID := 60

  /** The reserved amounts in force: a reservation lapses a minute after its heartbeat. */
  function ReservedBy(c: NodeCondition, now: int): (int, int, int) {
    if c.kind == PREEMPTION && !(c.heartbeat + ELAPSED_TIME_TO_INVALID < now) then PreemptionValues(c.reason)
    else (0, 0, 0)
  }

  function CpuOf(now: int): NodeCondition -> int { c => ReservedBy(c, now).0 }

  function MemoryOf(now: int): NodeCondition -> int { c => ReservedBy(c, now).1 }

  function DiskOf(now: int): NodeCondition -> int { c => ReservedBy(c, now).2 }

  function Reserved(c: seq<NodeCondition>, now: int): (int, int, int) {
    (Sum(CpuOf(now), c, |c|), Sum(MemoryOf(now), c, |c|), Sum(DiskOf(now), c, |c|))
  }

  /** The loop of fitsRequest over the conditions. */
  method ReservedAmounts(conditions: seq<NodeCondition>, now: int) returns (cpu: int, mem: int, disk: int)
    ensures (cpu, mem, disk) == Reserved(conditions, now)
  {
    cpu, mem, disk := 0, 0, 0;
    for i := 0 to |conditions|
      invariant cpu == Sum(CpuOf(now), conditions, i)
      invariant mem == Sum(MemoryOf(now), conditions, i)
      invariant disk == Sum(DiskOf(now), conditions, i)
    {
      var n := conditions[i];
      if n.kind == PREEMPTION && !(n.heartbeat + ELAPSED_TIME_TO_INVALID < now) {
        var (x, y, z) := PreemptionValues(n.reason);
        cpu, mem, disk := cpu + x, mem + y, disk + z;
      }
    }
  }

  /** A reservation stands for exactly the amounts it was made for, for a minute. */
  lemma ReservationReads(cpu: int64, mem: int64, disk: int64, made: int, now: int, key: string)
    ensures ReservedBy(Reservation(cpu, mem, disk, made, key), now) ==
            if now <= made + 60 then (cpu, mem, disk) else (0, 0, 0)
    ensures var r := Reservation(cpu, mem, disk, made, key);
            r.kind == "Preemption" && r.message == key && r.heartbeat == made
  {
    EncodingRoundTrip(cpu, mem, disk);
  }

  /** Other conditions reserve nothing. */
  lemma OthersReserveNothing(c: NodeCondition, now: int)
    requires c.kind != "Preemption"
    ensures ReservedBy(c, now) == (0, 0, 0)
  {
  }

  /** It adds these amounts to the totals wherever it stands in the list. */
  lemma ReservationCounts(c: seq<NodeCondition>, d: seq<NodeCondition>, r: NodeCondition, now: int)
    ensures var a, b, x := Reserved(c + d, now), Reserved(c + [r] + d, now), ReservedBy(r, now);
            b == (a.0 + x.0, a.1 + x.1, a.2 + x.2)
  {
    SumInserted(CpuOf(now), c, r, d);
    SumInserted(MemoryOf(now), c, r, d);
    SumInserted(DiskOf(now), c, r, d);
  }

  lemma ReservedOfMultiset(a: seq<NodeCondition>, b: seq<NodeCondition>, now: int)
    requires multiset(a) == multiset(b)
    ensures Reserved(a, now) == Reserved(b, now)
  {
    SumOfMultiset(CpuOf(now), a, b);
    SumOfMultiset(MemoryOf(now), a, b);
    SumOfMultiset(DiskOf(now), a, b);
  }

  /** When it is taken back the reserved totals are what they were without it. */
  lemma ReservationEnds(c: seq<NodeCondition>, d: seq<NodeCondition>, r: NodeCondition, now: int, key: string)
    requires NoneHolds(c, key) && NoneHolds(d, key) && Holds(r, key)
    ensures Reserved(Swept(c + [r] + d, key), now) == Reserved(c + d, now)
  {
    ReservationTakenBack(c, d, r, key);
    ReservedOfMultiset(Swept(c + [r] + d, key), c + d, now);
  }

  lemma SumInserted<T>(f: T -> int, c: seq<T>, r: T, d: seq<T>)
    ensures Sum(f, c + [r] + d, |c + [r] + d|) == Sum(f, c + d, |c + d|) + f(r)
  {
    SumConcat(f, c, [r], 1);
    SumConcat(f, c + [r], d, |d|);
    SumConcat(f, c, d, |d|);
    assert Sum(f, [r], 1) == Sum(f, [r], 0) + f(r);
  }
}
