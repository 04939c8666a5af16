/** Runs built step by step, and the histories of the whole system that they are. */
module Runs {
  import opened Model
  import opened Protocol
  import opened World

  /** t can follow s by steps of the allowed kind. */
  ghost predicate Leads(cfg: Config, s: Sys, t: Sys, allowed: Action -> bool) {
    exists trace: seq<Sys>, acts: seq<Action> :: IsPath(cfg, s, t, allowed, trace, acts)
  }

  ghost predicate IsPath(cfg: Config, s: Sys, t: Sys, allowed: Action -> bool, trace: seq<Sys>, acts: seq<Action>) {
    && IsRun(cfg, trace, acts) && trace[0] == s && trace[|acts|] == t
    && forall i :: 0 <= i < |acts| ==> allowed(acts[i])
  }

  lemma LeadsNowhere(cfg: Config, s: Sys, allowed: Action -> bool)
    requires cfg.n >= 1
    ensures Leads(cfg, s, s, allowed)
  {
    assert IsPath(cfg, s, s, allowed, [s], []);
  }

  lemma LeadsOn(cfg: Config, s: Sys, t: Sys, allowed: Action -> bool, a: Action)
    requires Leads(cfg, s, t, allowed) && cfg.n >= 1 && Enabled(cfg, t, a) && allowed(a)
    ensures Leads(cfg, s, Apply(cfg, t, a), allowed)
  {
    hide Apply, Enabled;
    var u := Apply(cfg, t, a);
    var trace: seq<Sys>, acts: seq<Action> :| IsPath(cfg, s, t, allowed, trace, acts);
    assert IsPath(cfg, s, u, allowed, trace + [u], acts + [a]);
  }

  /** What the steps of shard t may be when it is alone in the world. */
  function OwnSteps(t: Shard): Action -> bool {
    (a: Action) => Own(t, a)
  }

  /** A run up to s and steps of an allowed kind from there to u are one history. */
  lemma HistoryOf(n: nat, t: Shard, s: Sys, u: Sys, allowed: Action -> bool)
    returns (worlds: seq<Shards>, events: seq<Event>, first: nat)
    requires Leads(Config(t, n), INITIAL, s, OwnSteps(t)) && Leads(Config(t, n), s, u, allowed)
    requires forall a :: allowed(a) ==> Own(t, a)
    ensures IsHistory(n, worlds, events) && first <= |events|
    ensures worlds[first] == map[t := s] && worlds[|events|] == map[t := u]
    ensures forall i :: first <= i < |events| ==> allowed(ActionOf(events[i]))
  {
    hide Apply, Enabled, IsHistory;
    var cfg := Config(t, n);
    var trace1: seq<Sys>, acts1: seq<Action> :| IsPath(cfg, INITIAL, s, OwnSteps(t), trace1, acts1);
    var trace2: seq<Sys>, acts2: seq<Action> :| IsPath(cfg, s, u, allowed, trace2, acts2);
    var trace, acts := trace1 + trace2[1..], acts1 + acts2;
    first := |acts1|;
    forall i | 0 <= i < |acts|
      ensures Enabled(cfg, trace[i], acts[i]) && trace[i + 1] == Apply(cfg, trace[i], acts[i]) && Own(t, acts[i])
    {
      if i >= first {
        assert trace[i] == trace2[i - first] && trace[i + 1] == trace2[i - first + 1] && acts[i] == acts2[i - first];
      } else {
        assert trace[i] == trace1[i] && trace[i + 1] == trace1[i + 1] && acts[i] == acts1[i];
      }
    }
    OneShardHistory(n, t, trace, acts);
    worlds, events := Alone(t, trace), EventsOf(t, acts);
    forall i | first <= i < |events|
      ensures allowed(ActionOf(events[i]))
    {
      assert events[i] == EventOf(t, acts[i]) && acts[i] == acts2[i - first];
      ActionBack(t, acts[i]);
    }
  }

  lemma ActionBack(t: Shard, a: Action)
    requires Own(t, a)
    ensures ActionOf(EventOf(t, a)) == a
  {
  }
}
