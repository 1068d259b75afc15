/**
 * The chart loops of the plotting scripts: one job per river mile, sensor
 * and year, each of which makes a chart, is skipped, or raises past the
 * per-job handler and ends the whole loop with a count of 0.
 */
module Jobs {
  import opened Errors
  import opened Frames

  /** What one job of a chart loop came to. */
  datatype Step = Charted | Skipped | Aborted

  predicate IsCharted(s: Step)
  {
    s == Charted
  }

  /** The step of each job, in the order the loop visits them. */
  function Steps<X>(xs: seq<X>, step: X -> Step): (r: seq<Step>)
    ensures |r| == |xs|
    ensures forall i :: 0 <= i < |xs| ==> r[i] == step(xs[i])
  {
    seq(|xs|, i requires 0 <= i < |xs| => step(xs[i]))
  }

  /**
   * The counter after the jobs `steps`: the number of charts, or `None`
   * once a job has raised past the per-job handler.
   */
  function Tally(steps: seq<Step>): (r: Option<nat>)
    ensures r.Some? <==> Aborted !in steps
    ensures r.Some? ==> r.value == Count(steps, IsCharted)
  {
    if steps == [] then Some(0)
    else
      var n := |steps| - 1;
      var init := Tally(steps[..n]);
      assert steps == steps[..n] + [steps[n]];
      CountConcat(steps[..n], [steps[n]], IsCharted);
      assert [steps[n]][1..] == [];
      if steps[n] == Aborted || init.None? then None
      else Some(init.value + if steps[n] == Charted then 1 else 0)
  }

  /** What the loop returns: its count, or 0 when a job raised. */
  function Charts(steps: seq<Step>): (n: nat)
    ensures n <= |steps|
    ensures Aborted !in steps ==> n == Count(steps, IsCharted)
    ensures Aborted in steps ==> n == 0
  {
    match Tally(steps)
    case None => 0
    case Some(k) => k
  }

  /** One more job: the counter moves by one for a chart and stops at a raise. */
  lemma TallyStep(steps: seq<Step>, i: nat, count: nat)
    requires i < |steps| && Tally(steps[..i]) == Some(count)
    ensures steps[i] == Aborted ==> Tally(steps) == None
    ensures steps[i] != Aborted ==> Tally(steps[..i + 1]) == Some(count + if steps[i] == Charted then 1 else 0)
  {
    if steps[i] == Aborted {
      assert steps[i] in steps;
    } else {
      var longer := steps[..i + 1];
      assert |longer| - 1 == i && longer[i] == steps[i];
      assert longer[..i] == steps[..i];
    }
  }

  /** After the last job, the counter is the loop's result. */
  lemma TallyDone(steps: seq<Step>, count: nat)
    requires Tally(steps[..|steps|]) == Some(count)
    ensures Charts(steps) == count
  {
    assert steps[..|steps|] == steps;
  }

  /** The number of jobs among `xs` whose step is a chart. */
  function ChartedCount<X>(xs: seq<X>, step: X -> Step): (n: nat)
    ensures n <= |xs|
  {
    if xs == [] then 0 else (if step(xs[0]) == Charted then 1 else 0) + ChartedCount(xs[1..], step)
  }

  /** The charts counted are the jobs whose step is a chart. */
  lemma {:induction false} CountSteps<X>(xs: seq<X>, step: X -> Step)
    ensures Count(Steps(xs, step), IsCharted) == ChartedCount(xs, step)
  {
    if xs != [] {
      CountSteps(xs[1..], step);
      assert Steps(xs, step)[1..] == Steps(xs[1..], step);
    }
  }

  /** A loop in which no job raises counts exactly its charted jobs. */
  lemma ChartsWithoutRaise<X>(xs: seq<X>, step: X -> Step)
    requires forall x :: x in xs ==> step(x) != Aborted
    ensures Charts(Steps(xs, step)) == ChartedCount(xs, step)
  {
    var s := Steps(xs, step);
    assert Aborted !in s by {
      forall i | 0 <= i < |s| ensures s[i] != Aborted {
        assert xs[i] in xs;
      }
    }
    CountSteps(xs, step);
  }

  /**
   * `sum(g(x) for x in xs)`: the total, or the first exception one of the
   * calls raises, which ends the sum.
   */
  function SumOver<X>(xs: seq<X>, g: X -> Result<nat>): (r: Result<nat>)
    ensures r.Ok? <==> forall x :: x in xs ==> g(x).Ok?
    ensures r.Err? ==> exists x :: x in xs && g(x) == Err(r.error)
  {
    if xs == [] then Ok(0)
    else
      assert forall x :: x in xs[1..] ==> x in xs;
      match g(xs[0])
      case Err(e) => Err(e)
      case Ok(n) =>
        match SumOver(xs[1..], g)
        case Err(e) => Err(e)
        case Ok(m) => Ok(n + m)
  }

  /** `sum(h(x) for x in xs)` when no call raises. */
  function Total<X>(xs: seq<X>, h: X -> nat): nat
  {
    if xs == [] then 0 else h(xs[0]) + Total(xs[1..], h)
  }

  /** A sum whose calls all return normally is the total of their values. */
  lemma {:induction false} SumTotal<X>(xs: seq<X>, g: X -> Result<nat>, h: X -> nat)
    requires forall x :: x in xs ==> g(x) == Ok(h(x))
    ensures SumOver(xs, g) == Ok(Total(xs, h))
  {
    if xs != [] {
      assert forall x :: x in xs[1..] ==> x in xs;
      SumTotal(xs[1..], g, h);
      assert g(xs[0]) == Ok(h(xs[0]));
    }
  }

  /** A sum of calls that each give 0 or raise is 0 whenever it is not an exception. */
  lemma {:induction false} SumOfZeros<X>(xs: seq<X>, g: X -> Result<nat>)
    requires forall x :: x in xs && g(x).Ok? ==> g(x).value == 0
    ensures SumOver(xs, g).Ok? ==> SumOver(xs, g).value == 0
  {
    if xs != [] {
      assert forall x :: x in xs[1..] ==> x in xs;
      SumOfZeros(xs[1..], g);
    }
  }

  /** A sum of calls that each give 1 where `p` holds and 0 elsewhere counts `p`. */
  lemma {:induction false} SumCounts<X>(xs: seq<X>, g: X -> Result<nat>, p: X -> bool)
    requires forall x :: x in xs ==> g(x) == Ok(if p(x) then 1 else 0)
    ensures SumOver(xs, g) == Ok(Count(xs, p))
  {
    if xs != [] {
      assert forall x :: x in xs[1..] ==> x in xs;
      SumCounts(xs[1..], g, p);
    }
  }

  /**
   * A loop that appends what each job produces, in order, and stops at the
   * first job that raises.
   */
  function Gather<X(!new), T>(xs: seq<X>, g: X -> Result<seq<T>>): (r: Result<seq<T>>)
    ensures r.Ok? <==> forall x :: x in xs ==> g(x).Ok?
  {
    if xs == [] then Ok([])
    else
      var n := |xs| - 1;
      assert forall x :: x in xs <==> x in xs[..n] || x == xs[n] by {
        assert xs == xs[..n] + [xs[n]];
      }
      match Gather(xs[..n], g)
      case Err(e) => Err(e)
      case Ok(a) =>
        match g(xs[n])
        case Err(e) => Err(e)
        case Ok(b) => Ok(a + b)
  }

  /** One more job of a gathering loop that returned normally. */
  lemma GatherStep<X(!new), T>(xs: seq<X>, g: X -> Result<seq<T>>, i: nat, acc: seq<T>)
    requires i < |xs| && Gather(xs[..i], g) == Ok(acc) && g(xs[i]).Ok?
    ensures Gather(xs[..i + 1], g) == Ok(acc + g(xs[i]).value)
  {
    assert xs[..i + 1][..i] == xs[..i];
  }

  /** A job that raises after normal ones ends the whole loop with its exception. */
  lemma {:induction false} GatherFirstError<X(!new), T>(xs: seq<X>, g: X -> Result<seq<T>>, i: nat)
    requires i < |xs| && Gather(xs[..i], g).Ok? && g(xs[i]).Err?
    ensures Gather(xs, g) == Err(g(xs[i]).error)
    decreases |xs|
  {
    var n := |xs| - 1;
    if n == i {
      assert xs[..n] == xs[..i];
    } else {
      assert xs[..n][..i] == xs[..i] && xs[..n][i] == xs[i];
      GatherFirstError(xs[..n], g, i);
    }
  }

  lemma GatherDone<X(!new), T>(xs: seq<X>, g: X -> Result<seq<T>>, acc: seq<T>)
    requires Gather(xs[..|xs|], g) == Ok(acc)
    ensures Gather(xs, g) == Ok(acc)
  {
    assert xs[..|xs|] == xs;
  }

  /**
   * What a gathering loop returns is exactly what its jobs produced: each
   * item comes from some job, and every job's items are there.
   */
  lemma {:induction false} GatherMembers<X(!new), T(!new)>(xs: seq<X>, g: X -> Result<seq<T>>, out: seq<T>)
    requires Gather(xs, g) == Ok(out)
    ensures forall p :: p in out <==> exists x :: x in xs && p in g(x).value
    decreases |xs|
  {
    if xs != [] {
      var n := |xs| - 1;
      assert xs == xs[..n] + [xs[n]];
      var a := Gather(xs[..n], g).value;
      GatherMembers(xs[..n], g, a);
      assert out == a + g(xs[n]).value;
      forall p | p in out ensures exists x :: x in xs && p in g(x).value {
        if p in a {
          var x :| x in xs[..n] && p in g(x).value;
          assert x in xs;
        } else {
          assert xs[n] in xs;
        }
      }
      forall p | exists x :: x in xs && p in g(x).value ensures p in out {
        var x :| x in xs && p in g(x).value;
        if x != xs[n] {
          assert x in xs[..n];
        }
      }
    }
  }

  /**
   * A loop that appends what each job produces, in order, and catches every
   * exception a job raises, so that nothing ends it early.
   */
  function Collect<X, T>(xs: seq<X>, g: X -> seq<T>): seq<T>
  {
    if xs == [] then [] else Collect(xs[..|xs| - 1], g) + g(xs[|xs| - 1])
  }

  lemma CollectStep<X, T>(xs: seq<X>, g: X -> seq<T>, i: nat)
    requires i < |xs|
    ensures Collect(xs[..i + 1], g) == Collect(xs[..i], g) + g(xs[i])
  {
    assert xs[..i + 1][..i] == xs[..i];
  }

  lemma CollectDone<X, T>(xs: seq<X>, g: X -> seq<T>)
    ensures Collect(xs[..|xs|], g) == Collect(xs, g)
  {
    assert xs[..|xs|] == xs;
  }

  /** Each item collected comes from some job, and every job's items are there. */
  lemma {:induction false} CollectMembers<X(!new), T(!new)>(xs: seq<X>, g: X -> seq<T>)
    ensures forall p :: p in Collect(xs, g) <==> exists x :: x in xs && p in g(x)
    decreases |xs|
  {
    if xs != [] {
      var n := |xs| - 1;
      assert xs == xs[..n] + [xs[n]];
      CollectMembers(xs[..n], g);
      forall p | p in Collect(xs, g) ensures exists x :: x in xs && p in g(x) {
        if p in Collect(xs[..n], g) {
          var x :| x in xs[..n] && p in g(x);
          assert x in xs;
        } else {
          assert xs[n] in xs;
        }
      }
      forall p | exists x :: x in xs && p in g(x) ensures p in Collect(xs, g) {
        var x :| x in xs && p in g(x);
        if x != xs[n] {
          assert x in xs[..n];
        }
      }
    }
  }
}
