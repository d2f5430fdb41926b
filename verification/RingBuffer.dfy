/** The Sentinel's circular buffers: fixed slots, and one buffer per metric name. */
module RingBuffers {
  import opened Prelude
  import opened SentinelTypes

  /** The last `k` items of a stream, or all of it. */
  function LastN<T>(s: seq<T>, k: int): (r: seq<T>)
    ensures |r| == Min(Max(k, 0), |s|)
  {
    s[|s| - Min(Max(k, 0), |s|)..]
  }

  lemma {:induction false} LastNSnoc<T>(s: seq<T>, x: T, k: int)
    requires k >= 1
    ensures LastN(s + [x], k) == (if |s| < k then LastN(s, k) else LastN(s, k)[1..]) + [x]
  {
  }

  lemma {:induction false} MulBounds(d: int, c: int)
    requires c >= 1
    ensures d >= 1 ==> d * c >= c
    ensures d <= -1 ==> d * c <= -c
  {
  }

  /** Within two laps, the remainder is plain subtraction. */
  lemma {:induction false} WrapOnce(x: int, c: int)
    requires c >= 1 && 0 <= x < 2 * c
    ensures x % c == if x < c then x else x - c
  {
    var q := if x < c then 0 else 1;
    var d := x / c - q;
    assert d * c == (x / c) * c - q * c;
    MulBounds(d, c);
  }

  class RingBuffer<T> {
    const capacity: int
    const slots: array<Option<T>>
    var writeIndex: int
    var size: int

    /** Everything pushed since construction or the last clear. */
    ghost var pushed: seq<T>

    /** Where the `i`-th oldest retained item is. */
    ghost function Slot(i: int): int
      reads this
    {
      if size < capacity then i
      else if writeIndex + i < capacity then writeIndex + i
      else writeIndex + i - capacity
    }

    ghost predicate Valid()
      reads this, slots
    {
      && 1 <= capacity == slots.Length
      && size == Min(|pushed|, capacity)
      && 0 <= writeIndex < capacity
      && (size < capacity ==> writeIndex == size)
      && forall i :: 0 <= i < size ==> slots[Slot(i)] == Some(LastN(pushed, capacity)[i])
    }

    constructor (capacity: int)
      requires capacity >= 1
      ensures Valid() && pushed == [] && this.capacity == capacity && fresh(slots)
    {
      this.capacity := capacity;
      slots := new Option<T>[capacity](_ => None);
      writeIndex, size := 0, 0;
      pushed := [];
    }

    /** None is the constructor's exception for a capacity below one. */
    static method Create(capacity: int) returns (r: Option<RingBuffer<T>>)
      ensures r.Some? <==> capacity >= 1
      ensures r.Some? ==> fresh(r.value) && fresh(r.value.slots) && r.value.Valid()
      ensures r.Some? ==> r.value.pushed == [] && r.value.capacity == capacity
    {
      if capacity < 1 {
        return None;
      }
      var b := new RingBuffer(capacity);
      r := Some(b);
    }

    method Push(item: T)
      requires Valid()
      modifies this, slots
      ensures Valid() && pushed == old(pushed) + [item]
    {
      hide LastN;
      ghost var kept := LastN(pushed, capacity);
      LastNSnoc(pushed, item, capacity);
      WrapOnce(writeIndex + 1, capacity);
      assert forall i :: 0 <= i < size ==> slots[Slot(i)] == Some(kept[i]);
      slots[writeIndex] := Some(item);
      writeIndex := (writeIndex + 1) % capacity;
      if size < capacity {
        size := size + 1;
      }
      pushed := pushed + [item];
    }

    /** Items in chronological order: exactly the last `capacity` pushed. */
    method ToArray() returns (out: seq<T>)
      requires Valid()
      ensures out == LastN(pushed, capacity)
    {
      if size == 0 {
        return [];
      }
      out := [];
      var start := if size < capacity then 0 else writeIndex;
      for i := 0 to size
        invariant out == LastN(pushed, capacity)[..i]
      {
        WrapOnce(start + i, capacity);
        assert (start + i) % capacity == Slot(i);
        var item := slots[(start + i) % capacity];
        if item.Some? {
          out := out + [item.value];
        }
      }
    }

    /** The most recent `n` items in chronological order. */
    method Last(n: int) returns (r: seq<T>)
      requires Valid()
      ensures r == LastN(pushed, Min(n, capacity))
    {
      if n <= 0 {
        return [];
      }
      var all := ToArray();
      r := all[Max(0, |all| - n)..];
    }

    method Clear()
      requires Valid()
      modifies this, slots
      ensures Valid() && pushed == []
    {
      forall i | 0 <= i < slots.Length {
        slots[i] := None;
      }
      writeIndex, size := 0, 0;
      pushed := [];
    }
  }

  const DEFAULT_INTERVAL_MS := 5_000

  function CeilDiv(a: int, b: int): int
    requires b > 0
  {
    -(-a / b)
  }

  /** `n` slots are the fewest that cover the window, but never fewer than two. */
  predicate Covers(n: int, windowMs: int, intervalMs: int) {
    && n >= 2 && n * intervalMs >= windowMs
    && (n > 2 ==> (n - 1) * intervalMs < windowMs)
  }

  lemma {:induction false} CeilDivCovers(a: int, b: int)
    requires b > 0
    ensures CeilDiv(a, b) * b >= a && (CeilDiv(a, b) - 1) * b < a
  {
    var q, r := -a / b, -a % b;
    assert -a == q * b + r && 0 <= r < b;
    assert CeilDiv(a, b) * b == -(q * b);
    assert (CeilDiv(a, b) - 1) * b == -(q * b) - b;
  }

  lemma {:induction false} AtLeastTwoCovers(windowMs: int, intervalMs: int)
    requires intervalMs > 0
    ensures Covers(Max(2, CeilDiv(windowMs, intervalMs)), windowMs, intervalMs)
  {
    CeilDivCovers(windowMs, intervalMs);
    var n := CeilDiv(windowMs, intervalMs);
    if n < 2 {
      MulBounds(2 - n, intervalMs);
      assert 2 * intervalMs == n * intervalMs + (2 - n) * intervalMs;
    }
  }

  /** The samples of one metric name, in the order recorded. */
  function Named(stream: seq<Metric>, name: string): seq<Metric> {
    if stream == [] then []
    else
      var last := stream[|stream| - 1];
      Named(stream[..|stream| - 1], name) + if last.name == name then [last] else []
  }

  lemma {:induction false} NamedSnoc(stream: seq<Metric>, m: Metric, name: string)
    ensures Named(stream + [m], name) == Named(stream, name) + if m.name == name then [m] else []
  {
    assert (stream + [m])[..|stream|] == stream;
  }

  /** One buffer per metric name, created on first use. */
  class MetricRingBuffer {
    const capacityPerSeries: int
    var series: map<string, RingBuffer<Metric>>

    /** Everything recorded, and the objects the buffers live in. */
    ghost var stream: seq<Metric>
    ghost var Repr: set<object>

    /** The buffers are valid and share nothing. */
    ghost predicate Owns()
      reads this, Repr
    {
      && 1 <= capacityPerSeries && this !in Repr
      && (forall n :: n in series ==>
            && series[n] in Repr && series[n].slots in Repr
            && series[n].Valid() && series[n].capacity == capacityPerSeries)
      && (forall m, n :: m in series && n in series && m != n ==>
            series[m] != series[n] && series[m].slots != series[n].slots)
    }

    /** And each holds the samples of its name. */
    ghost predicate Valid()
      reads this, Repr
    {
      && Owns()
      && (forall n :: n in series ==> series[n].pushed == Named(stream, n))
      && (forall n :: n !in series ==> Named(stream, n) == [])
    }

    constructor (windowMs: int, intervalMs: int)
      ensures Valid() && stream == [] && Repr == {} && series == map[]
      ensures Covers(capacityPerSeries, windowMs, if intervalMs > 0 then intervalMs else 5_000)
    {
      AtLeastTwoCovers(windowMs, if intervalMs > 0 then intervalMs else DEFAULT_INTERVAL_MS);
      var safeInterval := if intervalMs > 0 then intervalMs else DEFAULT_INTERVAL_MS;
      capacityPerSeries := Max(2, CeilDiv(windowMs, safeInterval));
      series := map[];
      stream, Repr := [], {};
    }

    /** Create the buffer of a name not met before. */
    method EnsureSeries(name: string)
      requires Valid()
      modifies this`series, this`Repr
      ensures Valid() && name in series && fresh(Repr - old(Repr)) && old(Repr) <= Repr
    {
      if name !in series {
        var buffer := new RingBuffer<Metric>(capacityPerSeries);
        series := series[name := buffer];
        Repr := Repr + {buffer, buffer.slots};
      }
    }

    method Record(m: Metric)
      requires Valid()
      modifies this, Repr
      ensures Valid() && fresh(Repr - old(Repr))
      ensures stream == old(stream) + [m]
    {
      EnsureSeries(m.name);
      PushTo(m.name, m);
      forall n
        ensures Named(stream + [m], n) == Named(stream, n) + if m.name == n then [m] else []
      {
        NamedSnoc(stream, m, n);
      }
      stream := stream + [m];
    }

    method PushTo(name: string, m: Metric)
      requires Owns() && name in series
      modifies Repr
      ensures Owns()
      ensures forall n :: n in series ==>
        series[n].pushed == old(series[n].pushed) + if n == name then [m] else []
    {
      series[name].Push(m);
    }

    /** Chronological series for one name: a forecast over one metric is never diluted by another. */
    method Get(name: string) returns (r: seq<Metric>)
      requires Valid()
      ensures r == LastN(Named(stream, name), capacityPerSeries)
    {
      if name in series {
        r := series[name].ToArray();
      } else {
        r := [];
      }
    }

    method Recent(name: string, n: int) returns (r: seq<Metric>)
      requires Valid()
      ensures r == LastN(Named(stream, name), Min(n, capacityPerSeries))
    {
      if name in series {
        r := series[name].Last(n);
      } else {
        r := [];
      }
    }

    method Latest(name: string) returns (r: Option<Metric>)
      requires Valid()
      ensures r == if Named(stream, name) == [] then None else Some(Named(stream, name)[|Named(stream, name)| - 1])
    {
      var items := Recent(name, 1);
      r := if |items| > 0 then Some(items[0]) else None;
    }
  }
}
