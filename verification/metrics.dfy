/** The counters and timings of `PerformanceMetrics` in the helpers module.
    Counters live in a `defaultdict(int)`, so a name never set reads as 0.
    A timing is recorded from two clock readings handed in by the caller. */
module Performance {

  import opened Text

  datatype Metrics = Metrics(counters: map<String, int>, timings: map<String, seq<real>>, startTime: real)

  function Count(m: Metrics, name: String): int
  {
    if name in m.counters then m.counters[name] else 0
  }

  function Timings(m: Metrics, name: String): seq<real>
  {
    if name in m.timings then m.timings[name] else []
  }

  /** A fresh collector: no counters, no timings. */
  function Create(now: real): (m: Metrics)
    ensures forall name :: Count(m, name) == 0 && Timings(m, name) == []
  {
    Metrics(map[], map[], now)
  }

  /** `increment(name, value)`: adds `value` to one counter. */
  function Increment(m: Metrics, name: String, value: int): (r: Metrics)
    ensures Count(r, name) == Count(m, name) + value
    ensures forall other :: other != name ==> Count(r, other) == Count(m, other)
    ensures r.timings == m.timings
  {
    m.(counters := m.counters[name := Count(m, name) + value])
  }

  /** `set_counter(name, value)`: overwrites one counter. */
  function SetCounter(m: Metrics, name: String, value: int): (r: Metrics)
    ensures Count(r, name) == value
    ensures forall other :: other != name ==> Count(r, other) == Count(m, other)
    ensures r.timings == m.timings
  {
    m.(counters := m.counters[name := value])
  }

  /** `reset()`: clears every counter and timing and restarts the clock. */
  function Reset(m: Metrics, now: real): (r: Metrics)
    ensures forall name :: Count(r, name) == 0 && Timings(r, name) == []
    ensures r.startTime == now
  {
    Create(now)
  }

  /** Leaving a `timer(name)` block: appends the elapsed time, whether the
      block finished or raised. */
  function RecordTiming(m: Metrics, name: String, start: real, finish: real): (r: Metrics)
    ensures Timings(r, name) == Timings(m, name) + [finish - start]
    ensures forall other :: other != name ==> Timings(r, other) == Timings(m, other)
    ensures forall other :: Count(r, other) == Count(m, other)
  {
    m.(timings := m.timings[name := Timings(m, name) + [finish - start]])
  }

  /** Increments accumulate: two increments of one counter add up. */
  lemma {:induction false} IncrementTwice(m: Metrics, name: String, a: int, b: int)
    ensures Count(Increment(Increment(m, name, a), name, b), name) == Count(m, name) + a + b
  {
  }

  /** Increments of different counters commute. */
  lemma {:induction false} IncrementsCommute(m: Metrics, x: String, y: String, a: int, b: int)
    ensures forall name :: Count(Increment(Increment(m, x, a), y, b), name)
                        == Count(Increment(Increment(m, y, b), x, a), name)
  {
  }

  /** `set_counter` forgets everything before it. */
  lemma {:induction false} SetCounterOverwrites(m: Metrics, name: String, a: int, v: int)
    ensures Count(SetCounter(Increment(m, name, a), name, v), name) == v
  {
  }
}
