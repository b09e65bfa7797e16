/** The flows of one traffic class with the window loop that spawns them and shares the target out.

    The loops of a window stand in the order of the program: prune, spawn, share out, keep alive. The
    lemmas about the spawn loop come first, since its number of turns depends on the sum it builds. */
module FlowPools {
  import opened Common
  import F = FairShare

  /** The spawn loop after some turns: the flows, the new entries and the nominal bytes are those of that
      many spawns, and the number of spawns still to come is decided by the state. */
  ghost predicate Spawning(before: seq<F.Flow>, kept: seq<F.Alive>, w: F.Window, draws: seq<F.Draw>,
                           flows: seq<F.Flow>, spawned: seq<F.Alive>, sum: real)
  {
    var n := |spawned|;
    && F.Entries(before, kept) && F.DrawsValid(draws) && n <= F.MAX_SPAWN
    && flows == F.SpawnedTo(before, w, draws, n) && kept + spawned == F.EntriesTo(before, kept, draws, n)
    && F.Entries(flows, kept + spawned) && sum == F.SumNominal(flows, kept + spawned, w)
    && F.Spawns(before, kept, w, draws, 0) == F.Spawns(before, kept, w, draws, n)
  }

  lemma SpawningStarts(before: seq<F.Flow>, kept: seq<F.Alive>, w: F.Window, draws: seq<F.Draw>)
    requires F.Entries(before, kept) && F.DrawsValid(draws)
    ensures Spawning(before, kept, w, draws, before, [], F.SumNominal(before, kept, w))
  {
    assert kept + [] == kept;
    hide F.Spawns, F.SumNominal;
  }

  /** The loop guard says that the spawn loop does not stop yet. */
  lemma NotStopped(before: seq<F.Flow>, kept: seq<F.Alive>, w: F.Window, draws: seq<F.Draw>,
                   flows: seq<F.Flow>, spawned: seq<F.Alive>, sum: real)
    requires Spawning(before, kept, w, draws, flows, spawned, sum)
    requires sum < w.target && |spawned| < F.MAX_SPAWN && |kept| + |spawned| < F.MAX_ALIVE
    ensures F.Entries(before, kept) && F.DrawsValid(draws) && |spawned| < |draws| && draws[|spawned|].Valid()
    ensures var n, f, e := |spawned|, F.Spawned(draws[|spawned|], w.start),
        F.Alive(|flows|, draws[|spawned|].size as real);
      && F.Spawns(before, kept, w, draws, 0) == F.Spawns(before, kept, w, draws, n + 1)
      && F.SpawnedTo(before, w, draws, n + 1) == flows + [f]
      && F.EntriesTo(before, kept, draws, n + 1) == kept + spawned + [e]
      && F.Entries(flows, kept + spawned) && sum == F.SumNominal(flows, kept + spawned, w)
  {
    hide F.Spawned, F.SpawnedTo, F.EntriesTo, F.Spawns, F.Stops, F.SumNominal, F.Entries;
    F.SpawnTurn(before, kept, w, draws, |spawned|);
  }

  lemma SpawningNext(before: seq<F.Flow>, kept: seq<F.Alive>, w: F.Window, draws: seq<F.Draw>,
                     flows: seq<F.Flow>, spawned: seq<F.Alive>, sum: real)
    requires Spawning(before, kept, w, draws, flows, spawned, sum)
    requires sum < w.target && |spawned| < F.MAX_SPAWN && |kept| + |spawned| < F.MAX_ALIVE
    ensures |spawned| < |draws| && draws[|spawned|].Valid()
    ensures var d := draws[|spawned|];
      var f, e := F.Spawned(d, w.start), F.Alive(|flows|, d.size as real);
      Spawning(before, kept, w, draws, flows + [f], spawned + [e], sum + F.Nominal(f, e.rem, w))
  {
    hide *;
    NotStopped(before, kept, w, draws, flows, spawned, sum);
    var f, e := F.Spawned(draws[|spawned|], w.start), F.Alive(|flows|, draws[|spawned|].size as real);
    F.SumNominalSpawn(flows, kept + spawned, w, f, e);
    assert kept + (spawned + [e]) == (kept + spawned) + [e];
    SpawningParts(before, kept, w, draws, flows, spawned, sum);
    SpawningParts(before, kept, w, draws, flows + [f], spawned + [e], sum + F.Nominal(f, e.rem, w));
  }

  lemma SpawningParts(before: seq<F.Flow>, kept: seq<F.Alive>, w: F.Window, draws: seq<F.Draw>,
                      flows: seq<F.Flow>, spawned: seq<F.Alive>, sum: real)
    ensures Spawning(before, kept, w, draws, flows, spawned, sum) <==>
      var n := |spawned|;
      && F.Entries(before, kept) && F.DrawsValid(draws) && n <= F.MAX_SPAWN <= |draws|
      && flows == F.SpawnedTo(before, w, draws, n) && kept + spawned == F.EntriesTo(before, kept, draws, n)
      && F.Entries(flows, kept + spawned) && sum == F.SumNominal(flows, kept + spawned, w)
      && F.Spawns(before, kept, w, draws, 0) == F.Spawns(before, kept, w, draws, n)
  {
    hide F.SpawnedTo, F.EntriesTo, F.Entries, F.SumNominal, F.Spawns;
  }

  lemma SpawningEnds(before: seq<F.Flow>, kept: seq<F.Alive>, w: F.Window, draws: seq<F.Draw>,
                     flows: seq<F.Flow>, spawned: seq<F.Alive>, sum: real)
    requires Spawning(before, kept, w, draws, flows, spawned, sum)
    requires !(sum < w.target && |spawned| < F.MAX_SPAWN && |kept| + |spawned| < F.MAX_ALIVE)
    ensures F.Entries(before, kept) && F.DrawsValid(draws)
    ensures var n := F.Spawns(before, kept, w, draws, 0);
      flows == F.SpawnedTo(before, w, draws, n) && kept + spawned == F.EntriesTo(before, kept, draws, n)
    ensures F.Entries(flows, kept + spawned) && sum == F.SumNominal(flows, kept + spawned, w)
  {
    hide F.SpawnedTo, F.EntriesTo, F.Spawns, F.Stops, F.SumNominal, F.Entries;
    F.SpawnEnd(before, kept, w, draws, |spawned|);
  }

  /** The steps of a window put together. */
  lemma WindowParts(p: F.Pool, w: F.Window, draws: seq<F.Draw>, t: int,
                    kept: seq<F.Alive>, flows: seq<F.Flow>, spawned: seq<F.Alive>, sum: real)
    requires F.Entries(p.flows, p.alive) && F.PoolOk(p, t) && F.DrawsValid(draws) && kept == F.Keep(p.flows, p.alive, w)
    requires var n := F.Spawns(p.flows, kept, w, draws, 0);
      flows == F.SpawnedTo(p.flows, w, draws, n) && kept + spawned == F.EntriesTo(p.flows, kept, draws, n)
    requires F.Entries(flows, kept + spawned) && sum == F.SumNominal(flows, kept + spawned, w)
    ensures F.Distinct(kept + spawned)
    ensures var es, scale := kept + spawned, F.Scale(sum, w.target);
      F.AfterWindow(p, w, draws) == F.Pool(F.EmittedTo(flows, es, w, scale, |es|), F.AliveTo(flows, es, w, scale, |es|))
  {
    F.WindowSetting(p, w, draws, t);
    var es := kept + spawned;
    assert flows == F.WindowFlows(p, w, draws) && es == F.WindowEntries(p, w, draws);
    hide F.WindowFlows, F.WindowEntries, F.Spawns, F.SpawnedTo, F.EntriesTo, F.Keep, F.SumNominal, F.FlowsOk,
        F.EmittedTo, F.AliveTo;
  }

  class FlowPool {
    var flows: seq<F.Flow>
    var alive: seq<F.Alive>

    function State(): F.Pool
      reads this
    {
      F.Pool(flows, alive)
    }

    ghost predicate Valid()
      reads this
    {
      F.Entries(flows, alive)
    }

    constructor ()
      ensures Valid() && State() == F.Pool([], [])
    {
      flows, alive := [], [];
    }

    /** Step 1: keep the flows that can still send, with their nominal bytes. */
    method KeepAlive(w: F.Window) returns (kept: seq<F.Alive>, sum: real)
      requires Valid()
      ensures kept == F.Keep(flows, alive, w) && sum == F.SumNominal(flows, kept, w)
    {
      kept, sum := [], 0.0;
      var i := 0;
      while i < |alive|
        invariant i <= |alive|
        invariant kept == F.Keep(flows, alive[..i], w) && sum == F.SumNominal(flows, kept, w)
      {
        hide F.Nominal;
        var e := alive[i];
        assert alive[..i + 1][..i] == alive[..i];
        if !(e.rem <= 0.0 || flows[e.id].end <= w.start) {
          assert (kept + [e])[..|kept|] == kept;
          kept := kept + [e];
          sum := sum + F.Nominal(flows[e.id], e.rem, w);
        }
        i := i + 1;
      }
      assert alive[..i] == alive;
    }

    /** Step 2: spawn until the nominal bytes reach the target or a cap is hit. */
    method Spawn(w: F.Window, kept: seq<F.Alive>, nominal: real, draws: seq<F.Draw>)
      returns (spawned: seq<F.Alive>, sum: real)
      requires F.Entries(flows, kept) && F.DrawsValid(draws) && nominal == F.SumNominal(flows, kept, w)
      modifies this`flows
      ensures var n := F.Spawns(old(flows), kept, w, draws, 0);
        && flows == F.SpawnedTo(old(flows), w, draws, n)
        && kept + spawned == F.EntriesTo(old(flows), kept, draws, n)
      ensures F.Entries(flows, kept + spawned) && sum == F.SumNominal(flows, kept + spawned, w)
    {
      ghost var before := flows;
      spawned, sum := [], nominal;
      SpawningStarts(before, kept, w, draws);
      hide *;
      var n: nat := 0;
      while sum < w.target && n < F.MAX_SPAWN && |kept| + |spawned| < F.MAX_ALIVE
        invariant Spawning(before, kept, w, draws, flows, spawned, sum) && n == |spawned|
        decreases F.MAX_SPAWN - n
      {
        SpawningNext(before, kept, w, draws, flows, spawned, sum);
        var d := draws[n];
        var f := F.Spawned(d, w.start);
        var e := F.Alive(|flows|, d.size as real);
        flows := flows + [f];
        spawned := spawned + [e];
        sum := sum + F.Nominal(f, e.rem, w);
        n := n + 1;
      }
      SpawningEnds(before, kept, w, draws, flows, spawned, sum);
    }

    /** Step 4: every flow of the window sends its share; those with something left stay alive. */
    method EmitAll(w: F.Window, es: seq<F.Alive>, scale: real)
      requires F.Entries(flows, es) && F.Distinct(es) && alive == []
      modifies this
      ensures flows == F.EmittedTo(old(flows), es, w, scale, |es|) && alive == F.AliveTo(old(flows), es, w, scale, |es|)
    {
      ghost var before := flows;
      var i := 0;
      while i < |es|
        invariant i <= |es|
        invariant flows == F.EmittedTo(before, es, w, scale, i) && alive == F.AliveTo(before, es, w, scale, i)
      {
        F.EmittedAt(before, es, w, scale, i);
        hide F.Share;
        var e := es[i];
        assert flows[e.id] == before[e.id];
        var emit := F.Share(flows[e.id], e.rem, w, scale);
        var end := flows[e.id].end;
        if emit > 0.0 {
          flows := flows[e.id := flows[e.id].(emissions := flows[e.id].emissions + [F.Emission(w.start, w.end, emit)])];
        }
        var left := e.rem - emit;
        if left > 0.0 && end > w.end {
          alive := alive + [F.Alive(e.id, left)];
        }
        i := i + 1;
      }
    }

    /** One window of the class. */
    method RunWindow(w: F.Window, draws: seq<F.Draw>, ghost t: int)
      requires F.PoolOk(State(), t) && F.DrawsValid(draws) && Valid()
      modifies this
      ensures Valid() && State() == F.AfterWindow(old(State()), w, draws)
    {
      ghost var p := State();
      F.WindowKeepsEntries(p, w, draws);
      hide F.PoolOk, F.DrawsValid, F.AfterWindow;
      var kept, nominal := KeepAlive(w);
      assert F.Entries(flows, kept);
      hide *;
      var spawned, sum := Spawn(w, kept, nominal, draws);
      WindowParts(p, w, draws, t, kept, flows, spawned, sum);
      var scale := F.Scale(sum, w.target);
      alive := [];
      EmitAll(w, kept + spawned, scale);
    }

    /** All windows of a horizon. */
    method Generate(c: F.Plan)
      requires c.Valid() && Valid() && State() == F.Pool([], [])
      modifies this
      ensures Valid() && State() == F.After(c, |c.layers|)
    {
      hide *;
      F.NothingSentAtFirst(c);
      var i := 0;
      while i < |c.layers|
        invariant i <= |c.layers| && Valid() && State() == F.After(c, i)
      {
        F.RunNeverOvershoots(c, i);
        F.AfterTurn(c, i + 1);
        if !c.Skipped(i) {
          RunWindow(c.WindowAt(i), c.layers[i].draws, c.Clock(i));
        }
        i := i + 1;
      }
    }
  }
}
