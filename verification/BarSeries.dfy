/** The bounded series of closed bars of one symbol and timeframe: a set sorted by time that
    every write trims to its newest entries. */
module BarSeries {
  import opened Common

  /** A bar as stored: its time is part of the text, so equal entries have equal times. */
  datatype Bar = Bar(time: int, values: string)

  predicate Ascending(v: seq<Bar>) { forall i, j | 0 <= i < j < |v| :: v[i].time < v[j].time }

  predicate HasTime(v: seq<Bar>, time: int) { exists x | x in v :: x.time == time }

  /** The last bar written for a time. */
  function LastWrite(history: seq<Bar>, time: int): Option<Bar> {
    if history == [] then None
    else if history[|history| - 1].time == time then Some(history[|history| - 1])
    else LastWrite(history[..|history| - 1], time)
  }

  function Without(v: seq<Bar>, time: int): seq<Bar> {
    if v == [] then [] else Without(v[..|v| - 1], time) + if v[|v| - 1].time == time then [] else [v[|v| - 1]]
  }

  lemma {:induction false} WithoutElements(v: seq<Bar>, time: int)
    ensures forall x :: x in Without(v, time) <==> x in v && x.time != time
  {
    if v != [] {
      var front, last := v[..|v| - 1], v[|v| - 1];
      WithoutElements(front, time);
      assert v == front + [last];
    }
  }

  lemma {:induction false} WithoutAbsent(v: seq<Bar>, time: int)
    requires !HasTime(v, time)
    ensures Without(v, time) == v
  {
    if v != [] {
      var front, last := v[..|v| - 1], v[|v| - 1];
      assert v == front + [last] && last in v;
      forall x | x in front ensures x.time != time { assert x in v; }
      WithoutAbsent(front, time);
    }
  }

  lemma {:induction false} WithoutSorted(v: seq<Bar>, time: int)
    requires Ascending(v)
    ensures Ascending(Without(v, time))
  {
    if v != [] {
      var front, last := v[..|v| - 1], v[|v| - 1];
      WithoutSorted(front, time);
      WithoutElements(front, time);
      var rest := Without(front, time);
      forall j | 0 <= j < |rest| ensures rest[j].time < last.time {
        assert rest[j] in front;
      }
    }
  }

  /** A sorted series loses exactly the one bar of a time it has. */
  lemma {:induction false} WithoutOne(v: seq<Bar>, time: int)
    requires Ascending(v) && HasTime(v, time)
    ensures |Without(v, time)| == |v| - 1
  {
    var front, last := v[..|v| - 1], v[|v| - 1];
    assert v == front + [last];
    if last.time == time {
      WithoutAbsent(front, time);
    } else {
      var x :| x in v && x.time == time;
      assert x in front;
      WithoutOne(front, time);
    }
  }

  /** Where a new time belongs. */
  function Place(v: seq<Bar>, time: int): (i: nat)
    ensures i <= |v|
    ensures Ascending(v) ==> (forall j | 0 <= j < i :: v[j].time < time) && (i < |v| ==> v[i].time >= time)
  {
    if v == [] then 0 else if v[|v| - 1].time < time then |v| else Place(v[..|v| - 1], time)
  }

  function Inserted(v: seq<Bar>, b: Bar): seq<Bar> {
    var i := Place(v, b.time);
    v[..i] + [b] + v[i..]
  }

  function Newest(v: seq<Bar>, keep: nat): seq<Bar> { if |v| > keep then v[|v| - keep..] else v }

  /** The series holds exactly the newest `keep` of all times ever written, each with the last
      bar written for it. */
  ghost predicate Window(entries: seq<Bar>, history: seq<Bar>, keep: nat) {
    && Ascending(entries) && |entries| <= keep
    && (forall x | x in entries :: LastWrite(history, x.time) == Some(x))
    && (forall h | h in history :: HasTime(entries, h.time) || Older(entries, h.time, keep))
  }

  /** The series is full of newer times. */
  predicate Older(entries: seq<Bar>, time: int, keep: nat) {
    |entries| == keep && forall x | x in entries :: time < x.time
  }

  lemma InsertedSorted(v: seq<Bar>, b: Bar)
    requires Ascending(v) && !HasTime(v, b.time)
    ensures Ascending(Inserted(v, b)) && |Inserted(v, b)| == |v| + 1
    ensures forall x :: x in Inserted(v, b) <==> x in v || x == b
  {
    var i := Place(v, b.time);
    assert v == v[..i] + v[i..];
    forall j | i <= j < |v| ensures v[j].time > b.time { assert v[j] in v; }
  }

  lemma NewestOfSorted(v: seq<Bar>, keep: nat)
    requires Ascending(v)
    ensures Ascending(Newest(v, keep)) && |Newest(v, keep)| <= keep
    ensures forall x | x in Newest(v, keep) :: x in v
    ensures forall x | x in v && x !in Newest(v, keep) :: Older(Newest(v, keep), x.time, keep)
  {
    forall x | x in v && x !in Newest(v, keep) ensures Older(Newest(v, keep), x.time, keep) {
      LeftOut(v, keep, x);
    }
  }

  lemma LeftOut(v: seq<Bar>, keep: nat, x: Bar)
    requires Ascending(v) && x in v && x !in Newest(v, keep)
    ensures Older(Newest(v, keep), x.time, keep)
  {
    var r := Newest(v, keep);
    var cut := |v| - |r|;
    assert forall k | cut <= k < |v| :: v[k] == r[k - cut];
    var i :| 0 <= i < |v| && v[i] == x;
    forall y | y in r ensures x.time < y.time {
      var j :| 0 <= j < |r| && r[j] == y;
      assert i < cut && v[cut + j] == y;
    }
  }

  function After(entries: seq<Bar>, keep: nat, b: Bar): seq<Bar> {
    Newest(Inserted(Without(entries, b.time), b), keep)
  }

  /** What a write leaves: the old entries of other times and the new bar, as far as they fit. */
  lemma AfterElements(entries: seq<Bar>, keep: nat, b: Bar)
    requires Ascending(entries)
    ensures Ascending(After(entries, keep, b)) && |After(entries, keep, b)| <= keep
    ensures forall x | x in After(entries, keep, b) :: x == b || (x in entries && x.time != b.time)
    ensures forall x | x == b || (x in entries && x.time != b.time) ::
      x in After(entries, keep, b) || Older(After(entries, keep, b), x.time, keep)
  {
    var rest := Without(entries, b.time);
    WithoutSorted(entries, b.time);
    WithoutElements(entries, b.time);
    InsertedSorted(rest, b);
    NewestOfSorted(Inserted(rest, b), keep);
  }

  /** A time that was in the series, or has just been written, still is or is older. */
  lemma StaysOrAges(entries: seq<Bar>, keep: nat, b: Bar, time: int)
    requires Ascending(entries) && (time == b.time || HasTime(entries, time))
    ensures HasTime(After(entries, keep, b), time) || Older(After(entries, keep, b), time, keep)
  {
    AfterElements(entries, keep, b);
    if time == b.time {
      assert b in After(entries, keep, b) || Older(After(entries, keep, b), b.time, keep);
    } else {
      var x :| x in entries && x.time == time;
      assert x in After(entries, keep, b) || Older(After(entries, keep, b), x.time, keep);
    }
  }

  /** A time the full series had left behind stays behind. */
  lemma StaysOlder(entries: seq<Bar>, keep: nat, b: Bar, time: int)
    requires Ascending(entries) && Older(entries, time, keep) && time != b.time
    ensures Older(After(entries, keep, b), time, keep)
  {
    var rest := Without(entries, b.time);
    AfterElements(entries, keep, b);
    WithoutSorted(entries, b.time);
    WithoutElements(entries, b.time);
    InsertedSorted(rest, b);
    if HasTime(entries, b.time) {
      WithoutOne(entries, b.time);
      var y :| y in entries && y.time == b.time;
    } else {
      WithoutAbsent(entries, b.time);
      if b in After(entries, keep, b) { OldestIsDropped(entries, b, keep, time); }
    }
  }

  /** One write keeps the window. */
  lemma WriteKeeps(entries: seq<Bar>, history: seq<Bar>, keep: nat, b: Bar)
    requires Window(entries, history, keep)
    ensures Window(After(entries, keep, b), history + [b], keep)
  {
    var more, after := history + [b], After(entries, keep, b);
    assert more[..|history|] == history;
    AfterElements(entries, keep, b);
    forall h | h in more ensures HasTime(after, h.time) || Older(after, h.time, keep) {
      if h.time == b.time || HasTime(entries, h.time) {
        StaysOrAges(entries, keep, b, h.time);
      } else {
        StaysOlder(entries, keep, b, h.time);
      }
    }
  }

  /** Inserted below a full series, a bar is the one that is trimmed. */
  lemma OldestIsDropped(v: seq<Bar>, b: Bar, keep: nat, time: int)
    requires Ascending(v) && |v| == keep && (forall x | x in v :: time < x.time) && !HasTime(v, b.time)
        && time != b.time
    requires b in Newest(Inserted(v, b), keep)
    ensures time < b.time
  {
    InsertedSorted(v, b);
    var all := Inserted(v, b);
    var i :| 1 <= i < |all| && all[i] == b;
    assert all[0].time < b.time && all[0] in all;
  }

  /** The latest time is the overall maximum. */
  lemma LatestIsMaximum(entries: seq<Bar>, history: seq<Bar>, keep: nat)
    requires Window(entries, history, keep) && entries != []
    ensures forall h | h in history :: h.time <= entries[|entries| - 1].time
    ensures HasTime(history, entries[|entries| - 1].time)
  {
    var last := entries[|entries| - 1];
    assert last in entries;
    WasWritten(history, last.time);
    forall h | h in history ensures h.time <= last.time {
      if HasTime(entries, h.time) { var x :| x in entries && x.time == h.time; }
    }
  }

  lemma SomethingKept(entries: seq<Bar>, history: seq<Bar>, keep: nat)
    requires Window(entries, history, keep) && keep > 0 && history != []
    ensures entries != []
  {
    assert history[0] in history;
  }

  lemma {:induction false} WasWritten(history: seq<Bar>, time: int)
    requires LastWrite(history, time).Some?
    ensures HasTime(history, time)
  {
    if history[|history| - 1].time == time {
      assert history[|history| - 1] in history;
    } else {
      WasWritten(history[..|history| - 1], time);
      var x :| x in history[..|history| - 1] && x.time == time;
      assert x in history;
    }
  }

  class BarSeries {
    var entries: seq<Bar>
    ghost var history: seq<Bar>
    const windowMax: nat

    ghost predicate Valid()
      reads this
    {
      Window(entries, history, windowMax)
    }

    constructor (windowMax: nat)
      ensures Valid() && history == [] && this.windowMax == windowMax
    {
      this.windowMax, entries, history := windowMax, [], [];
    }

    method RemoveByScore(time: int)
      modifies `entries
      ensures entries == Without(old(entries), time)
    {
      var kept := [];
      for i := 0 to |entries|
        invariant kept == Without(entries[..i], time)
        invariant entries == old(entries)
      {
        assert entries[..i + 1][..i] == entries[..i];
        if entries[i].time != time { kept := kept + [entries[i]]; }
      }
      assert entries[..|entries|] == entries;
      entries := kept;
    }

    method Add(b: Bar)
      requires !HasTime(entries, b.time)
      modifies `entries
      ensures entries == Inserted(old(entries), b)
    {
      var i := |entries|;
      assert entries[..i] == entries;
      while i > 0 && entries[i - 1].time >= b.time
        invariant 0 <= i <= |entries|
        invariant Place(entries, b.time) == Place(entries[..i], b.time)
      {
        assert entries[..i][..i - 1] == entries[..i - 1];
        i := i - 1;
      }
      entries := entries[..i] + [b] + entries[i..];
    }

    method TrimToNewest(keep: nat)
      modifies `entries
      ensures entries == Newest(old(entries), keep)
    {
      if |entries| > keep { entries := entries[|entries| - keep..]; }
    }

    /** Any write, out of order or repeated, leaves exactly the newest times with their last bars. */
    method WriteClosedBar(b: Bar)
      requires Valid()
      modifies this
      ensures Valid() && history == old(history) + [b]
    {
      WriteKeeps(entries, history, windowMax, b);
      WithoutElements(entries, b.time);
      RemoveByScore(b.time);
      Add(b);
      TrimToNewest(windowMax);
      history := history + [b];
    }

    method LatestTimestamp() returns (time: Option<int>)
      requires Valid()
      ensures time.Some? ==> HasTime(history, time.value) && forall h | h in history :: h.time <= time.value
      ensures windowMax > 0 && history != [] ==> time.Some?
    {
      if windowMax > 0 && history != [] { SomethingKept(entries, history, windowMax); }
      if entries == [] {
        return None;
      }
      LatestIsMaximum(entries, history, windowMax);
      time := Some(entries[|entries| - 1].time);
    }
  }
}
