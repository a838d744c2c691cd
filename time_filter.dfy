/**
  The time window of the report: the five timestamped tables are cut down to the
  rows no older than a number of minutes before the latest timestamp found in any
  of them. When no table holds a row, the tables come back unchanged except that
  the PoP list is replaced by an empty one.
 */
module TimeFilter {

  import opened Wrappers
  import opened LogRecords

  /** One minute, in the microseconds timestamps are counted in. */
  const MinuteMicros: int := 60_000_000

  /** The five timestamped results of a parse that the window applies to. */
  datatype Tables = Tables(
    tunnels: seq<Stamped<Flow>>,
    bypasses: seq<Stamped<Flow>>,
    pops: seq<Stamped<string>>,
    rtts: seq<Stamped<Rtt>>,
    errors: seq<Stamped<string>>)

  const NoTables := Tables([], [], [], [], [])

  /** The timestamp column of a table. */
  function Stamps<T>(rows: seq<Stamped<T>>): seq<int> {
    seq(|rows|, i requires 0 <= i < |rows| => rows[i].ts)
  }

  /** Every timestamp of the four frames and of the PoP list. */
  function AllStamps(t: Tables): seq<int> {
    Stamps(t.tunnels) + Stamps(t.bypasses) + Stamps(t.rtts) + Stamps(t.errors) + Stamps(t.pops)
  }

  /** The largest value of `xs`, none for an empty sequence. */
  function Max(xs: seq<int>): (r: Option<int>)
    ensures r.None? <==> xs == []
    ensures r.Some? ==> r.value in xs && forall x :: x in xs ==> x <= r.value
  {
    if xs == [] then None
    else
      assert xs == [xs[0]] + xs[1..];
      var m := Max(xs[1..]);
      if m.Some? && m.value > xs[0] then m else Some(xs[0])
  }

  /** The latest timestamp of all tables. */
  function Latest(t: Tables): Option<int> {
    Max(AllStamps(t))
  }

  /** The earliest timestamp a row may have to stay in a window of `minutes` ending at `latest`. */
  function Cutoff(latest: int, minutes: int): int {
    latest - minutes * MinuteMicros
  }

  /** The rows stamped at or after `cutoff`, in their order. */
  function KeepSince<T(!new)>(rows: seq<Stamped<T>>, cutoff: int): (r: seq<Stamped<T>>)
    ensures |r| <= |rows|
    ensures forall x :: x in r <==> x in rows && x.ts >= cutoff
  {
    if rows == [] then []
    else
      assert rows == [rows[0]] + rows[1..];
      (if rows[0].ts >= cutoff then [rows[0]] else []) + KeepSince(rows[1..], cutoff)
  }

  /** The tables cut to the last `minutes` minutes before the latest timestamp. */
  function FilterByMinutes(t: Tables, minutes: int): (r: Tables)
    ensures Latest(t).None? ==> r == t
    ensures Latest(t).Some? ==>
      var c := Cutoff(Latest(t).value, minutes);
      && r.tunnels == KeepSince(t.tunnels, c) && r.bypasses == KeepSince(t.bypasses, c)
      && r.pops == KeepSince(t.pops, c) && r.rtts == KeepSince(t.rtts, c) && r.errors == KeepSince(t.errors, c)
      && (forall x :: x in r.tunnels <==> x in t.tunnels && x.ts >= c)
      && (forall x :: x in r.bypasses <==> x in t.bypasses && x.ts >= c)
      && (forall x :: x in r.pops <==> x in t.pops && x.ts >= c)
      && (forall x :: x in r.rtts <==> x in t.rtts && x.ts >= c)
      && (forall x :: x in r.errors <==> x in t.errors && x.ts >= c)
  {
    match Latest(t)
    case None =>
      assert |AllStamps(t)| == 0;
      t.(pops := [])
    case Some(latest) =>
      var c := Cutoff(latest, minutes);
      Tables(KeepSince(t.tunnels, c), KeepSince(t.bypasses, c), KeepSince(t.pops, c),
             KeepSince(t.rtts, c), KeepSince(t.errors, c))
  }

  // ---------------------------------------------------------------------------
  // Properties

  /** A timestamp is in a column exactly when some row carries it. */
  lemma StampsMember<T(!new)>(rows: seq<Stamped<T>>, v: int)
    ensures v in Stamps(rows) <==> exists x :: x in rows && x.ts == v
  {
    if v in Stamps(rows) {
      var i :| 0 <= i < |rows| && Stamps(rows)[i] == v;
      assert rows[i] in rows;
    }
    if exists x :: x in rows && x.ts == v {
      var x :| x in rows && x.ts == v;
      var i :| 0 <= i < |rows| && rows[i] == x;
      assert Stamps(rows)[i] == v;
    }
  }

  /** The column of the kept rows holds the timestamps at or after the cutoff. */
  lemma KeptStamps<T(!new)>(rows: seq<Stamped<T>>, c: int, v: int)
    ensures v in Stamps(KeepSince(rows, c)) <==> v in Stamps(rows) && v >= c
  {
    StampsMember(rows, v);
    StampsMember(KeepSince(rows, c), v);
  }

  /** Within the window, the timestamps left are those of the tables at or after the cutoff. */
  lemma WindowStamps(t: Tables, minutes: int, v: int)
    requires Latest(t).Some?
    ensures var c := Cutoff(Latest(t).value, minutes);
      v in AllStamps(FilterByMinutes(t, minutes)) <==> v in AllStamps(t) && v >= c
  {
    var c := Cutoff(Latest(t).value, minutes);
    KeptStamps(t.tunnels, c, v);
    KeptStamps(t.bypasses, c, v);
    KeptStamps(t.pops, c, v);
    KeptStamps(t.rtts, c, v);
    KeptStamps(t.errors, c, v);
  }

  /** A value of the sequence that bounds all others is its maximum. */
  lemma MaxUnique(xs: seq<int>, m: int)
    requires m in xs && forall x :: x in xs ==> x <= m
    ensures Max(xs) == Some(m)
  {
  }

  /** A window of zero or more minutes keeps the latest timestamp. */
  lemma LatestSurvives(t: Tables, minutes: int)
    requires minutes >= 0
    ensures Latest(FilterByMinutes(t, minutes)) == Latest(t)
  {
    if Latest(t).Some? {
      var latest := Latest(t).value;
      var r := FilterByMinutes(t, minutes);
      WindowStamps(t, minutes, latest);
      forall v | v in AllStamps(r) ensures v <= latest {
        WindowStamps(t, minutes, v);
      }
      MaxUnique(AllStamps(r), latest);
    }
  }

  /** The kept rows of a concatenation are the kept rows of its parts, in order. */
  lemma {:induction false} KeepSinceAppend<T(!new)>(a: seq<Stamped<T>>, b: seq<Stamped<T>>, c: int)
    ensures KeepSince(a + b, c) == KeepSince(a, c) + KeepSince(b, c)
  {
    if a != [] {
      assert (a + b)[1..] == a[1..] + b;
      KeepSinceAppend(a[1..], b, c);
    } else {
      assert a + b == b;
    }
  }

  /** Cutting at a later time after cutting at an earlier one is cutting at the later one. */
  lemma {:induction false} KeepSinceNested<T(!new)>(rows: seq<Stamped<T>>, early: int, late: int)
    requires early <= late
    ensures KeepSince(KeepSince(rows, early), late) == KeepSince(rows, late)
  {
    if rows != [] {
      KeepSinceNested(rows[1..], early, late);
      var head := if rows[0].ts >= early then [rows[0]] else [];
      KeepSinceAppend(head, KeepSince(rows[1..], early), late);
    }
  }

  /** The latest timestamp bounds every row of every table. */
  lemma LatestBounds(t: Tables)
    requires Latest(t).Some?
    ensures var latest := Latest(t).value;
      && (forall x :: x in t.tunnels ==> x.ts <= latest)
      && (forall x :: x in t.bypasses ==> x.ts <= latest)
      && (forall x :: x in t.pops ==> x.ts <= latest)
      && (forall x :: x in t.rtts ==> x.ts <= latest)
      && (forall x :: x in t.errors ==> x.ts <= latest)
  {
    forall x | x in t.tunnels ensures x.ts in AllStamps(t) {
      StampsMember(t.tunnels, x.ts);
    }
    forall x | x in t.bypasses ensures x.ts in AllStamps(t) {
      StampsMember(t.bypasses, x.ts);
    }
    forall x | x in t.pops ensures x.ts in AllStamps(t) {
      StampsMember(t.pops, x.ts);
    }
    forall x | x in t.rtts ensures x.ts in AllStamps(t) {
      StampsMember(t.rtts, x.ts);
    }
    forall x | x in t.errors ensures x.ts in AllStamps(t) {
      StampsMember(t.errors, x.ts);
    }
  }

  /** A negative window lies wholly after the latest timestamp: every row goes. */
  lemma NegativeWindowDropsAll(t: Tables, minutes: int)
    requires minutes < 0
    ensures FilterByMinutes(t, minutes) == NoTables
  {
    if Latest(t).Some? {
      LatestBounds(t);
      var c := Cutoff(Latest(t).value, minutes);
      KeepSinceNone(t.tunnels, c);
      KeepSinceNone(t.bypasses, c);
      KeepSinceNone(t.pops, c);
      KeepSinceNone(t.rtts, c);
      KeepSinceNone(t.errors, c);
    } else {
      assert |AllStamps(t)| == 0;
    }
  }

  /** Nothing is kept of rows that all lie before the cutoff. */
  lemma {:induction false} KeepSinceNone<T(!new)>(rows: seq<Stamped<T>>, c: int)
    requires forall x :: x in rows ==> x.ts < c
    ensures KeepSince(rows, c) == []
  {
    if rows != [] {
      assert rows[0] in rows;
      assert forall x :: x in rows[1..] ==> x in rows;
      KeepSinceNone(rows[1..], c);
    }
  }

  /** Narrowing a window that was already cut to a wider one gives the narrower window directly. */
  lemma FilterNarrowing(t: Tables, wide: int, narrow: int)
    requires 0 <= narrow <= wide
    ensures FilterByMinutes(FilterByMinutes(t, wide), narrow) == FilterByMinutes(t, narrow)
  {
    if Latest(t).Some? {
      var latest := Latest(t).value;
      LatestSurvives(t, wide);
      var early, late := Cutoff(latest, wide), Cutoff(latest, narrow);
      KeepSinceNested(t.tunnels, early, late);
      KeepSinceNested(t.bypasses, early, late);
      KeepSinceNested(t.pops, early, late);
      KeepSinceNested(t.rtts, early, late);
      KeepSinceNested(t.errors, early, late);
    }
  }

  /** Applying the same window twice changes nothing more. */
  lemma FilterIdempotent(t: Tables, minutes: int)
    ensures FilterByMinutes(FilterByMinutes(t, minutes), minutes) == FilterByMinutes(t, minutes)
  {
    if minutes >= 0 {
      FilterNarrowing(t, minutes, minutes);
    } else {
      NegativeWindowDropsAll(t, minutes);
      NegativeWindowDropsAll(NoTables, minutes);
    }
  }
}
