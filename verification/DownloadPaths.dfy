/** Where a download can get to from a given state when it is left alone. */
module DownloadPaths {
  import opened Download
  import opened DownloadInvariant
  import opened DownloadSteps

  /** One step of the program, or a kill, but no outside damage. */
  ghost predicate Moved(c: Config, s: State, t: State)
    requires c.manifest.Valid()
  {
    exists a: Action :: Step(c, s, a, t) && !a.Damage?
  }

  ghost predicate Path(c: Config, states: seq<State>)
    requires c.manifest.Valid()
  {
    states != [] && forall k | 0 <= k < |states| - 1 :: Moved(c, states[k], states[k + 1])
  }

  ghost predicate Leads(c: Config, s: State, t: State)
    requires c.manifest.Valid()
  {
    exists states: seq<State> :: Path(c, states) && states[0] == s && states[|states| - 1] == t
  }

  lemma LeadsNowhere(c: Config, s: State)
    requires c.manifest.Valid()
    ensures Leads(c, s, s)
  {
    assert Path(c, [s]);
  }

  lemma MovedLeads(c: Config, s: State, t: State)
    requires c.manifest.Valid() && Moved(c, s, t)
    ensures Leads(c, s, t)
  {
    assert Path(c, [s, t]);
  }

  lemma StepLeads(c: Config, s: State, a: Action, t: State)
    requires c.manifest.Valid() && Step(c, s, a, t) && !a.Damage?
    ensures Leads(c, s, t)
  {
    assert Moved(c, s, t);
    MovedLeads(c, s, t);
  }

  lemma JoinPaths(c: Config, xs: seq<State>, ys: seq<State>)
    requires c.manifest.Valid() && Path(c, xs) && Path(c, ys) && xs[|xs| - 1] == ys[0]
    ensures Path(c, xs + ys[1..])
  {
    var zs := xs + ys[1..];
    forall k | 0 <= k < |zs| - 1
      ensures Moved(c, zs[k], zs[k + 1])
    {
      if k + 1 < |xs| {
        assert zs[k] == xs[k] && zs[k + 1] == xs[k + 1];
      } else {
        var j := k + 1 - |xs|;
        assert zs[k + 1] == ys[j + 1] && zs[k] == ys[j];
      }
    }
  }

  lemma LeadsOn(c: Config, s: State, t: State, u: State)
    requires c.manifest.Valid() && Leads(c, s, t) && Leads(c, t, u)
    ensures Leads(c, s, u)
  {
    var xs :| Path(c, xs) && xs[0] == s && xs[|xs| - 1] == t;
    var ys :| Path(c, ys) && ys[0] == t && ys[|ys| - 1] == u;
    JoinPaths(c, xs, ys);
    var zs := xs + ys[1..];
    assert zs[0] == s && zs[|zs| - 1] == u;
  }

  lemma MovedKeepsInv(c: Config, s: State, t: State)
    requires c.Valid() && Inv(c, s) && Moved(c, s, t)
    ensures Inv(c, t)
  {
    var a :| Step(c, s, a, t) && !a.Damage?;
    StepKeepsInv(c, s, a, t);
  }
}
