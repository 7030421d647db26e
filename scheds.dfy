/** libfactory/scheds.py: a container of scheduler plugins run as a chain, each
    plugin's calculate taking the number the previous one returned. */
module Scheds {
  import opened PyValues

  /** A scheduler plugin, through its calculate(n): a number, or the exception it
      raises (its message). */
  datatype Scheduler = Scheduler(calculate: int -> Result<int, string>)

  /** The plugins applied left to right from n; the first exception ends the chain. */
  function Chain(schedulers: seq<Scheduler>, n: int): (r: Result<int, string>)
    ensures |schedulers| == 0 ==> r == Ok(n)
    ensures r.Err? ==> exists i, m | 0 <= i < |schedulers| :: schedulers[i].calculate(m) == r
    decreases |schedulers|
  {
    if |schedulers| == 0 then Ok(n)
    else
      var step := schedulers[0].calculate(n);
      if step.Err? then step else Chain(schedulers[1..], step.value)
  }

  /** Running two lists of plugins one after the other is running the first, then the
      second from its result; an exception in the first is what the whole run raises. */
  lemma {:induction false} ChainConcat(s: seq<Scheduler>, t: seq<Scheduler>, n: int)
    ensures Chain(s + t, n) == if Chain(s, n).Err? then Chain(s, n) else Chain(t, Chain(s, n).value)
    decreases |s|
  {
    if |s| == 0 {
      assert s + t == t;
    } else {
      assert (s + t)[0] == s[0];
      assert (s + t)[1..] == s[1..] + t;
      var step := s[0].calculate(n);
      if step.Ok? {
        ChainConcat(s[1..], t, step.value);
      }
    }
  }

  /** A plugin added last takes the result of all the earlier ones. */
  lemma ChainAppend(s: seq<Scheduler>, p: Scheduler, n: int)
    ensures Chain(s + [p], n) == if Chain(s, n).Err? then Chain(s, n) else p.calculate(Chain(s, n).value)
  {
    ChainConcat(s, [p], n);
    if Chain(s, n).Ok? {
      assert [p][1..] == [];
    }
  }

  /** An exception raised by the plugin at position i, after the ones before it
      returned, is the exception of the whole chain. */
  lemma ChainRaisesAt(s: seq<Scheduler>, i: nat, n: int)
    requires i < |s| && Chain(s[..i], n).Ok? && s[i].calculate(Chain(s[..i], n).value).Err?
    ensures Chain(s, n) == s[i].calculate(Chain(s[..i], n).value)
  {
    assert s == s[..i] + s[i..];
    ChainConcat(s[..i], s[i..], n);
  }

  /** schedulermanager, without the undefined base class of line 10. */
  class SchedulerManager {
    var schedulers: seq<Scheduler>

    constructor ()
      ensures schedulers == []
    {
      schedulers := [];
    }

    /** add(scheduler): appended after the plugins already there. */
    method Add(scheduler: Scheduler)
      modifies this
      ensures schedulers == old(schedulers) + [scheduler]
    {
      schedulers := schedulers + [scheduler];
    }

    /** calculate(n): n passed through every plugin in insertion order; with no
        plugins n itself. An exception is raised again unchanged. */
    method Calculate(n: int) returns (r: Result<int, string>)
      ensures r == Chain(schedulers, n)
      ensures schedulers == [] ==> r == Ok(n)
    {
      var x := n;
      for i := 0 to |schedulers|
        invariant Chain(schedulers, n) == Chain(schedulers[i..], x)
      {
        assert schedulers[i..][1..] == schedulers[i + 1..];
        var step := schedulers[i].calculate(x);
        if step.Err? {
          return step;
        }
        x := step.value;
      }
      return Ok(x);
    }

    /** calculate() with its default input 0. */
    method CalculateDefault() returns (r: Result<int, string>)
      ensures r == Chain(schedulers, 0)
    {
      r := Calculate(0);
    }
  }

  /** After add(p), calculate(n) is p applied to what calculate(n) gave before. */
  method AddRunsLast(m: SchedulerManager, p: Scheduler, n: int) returns (before: Result<int, string>, after: Result<int, string>)
    modifies m
    ensures m.schedulers == old(m.schedulers) + [p]
    ensures after == if before.Err? then before else p.calculate(before.value)
  {
    before := m.Calculate(n);
    m.Add(p);
    after := m.Calculate(n);
    ChainAppend(old(m.schedulers), p, n);
  }
}
