/** One request of the WebSocket server (transport/ws/ws.go) that nobody disturbs, from whatever state. */
module SlotsAlone {
  import opened ConnectionIds
  import opened Slots

  predicate At(s: State, t: nat, pc: Pc) { t < |s.threads| && s.threads[t] == pc }

  ghost predicate OnlyRuns(es: seq<Event>, t: nat) { forall e :: e in es ==> e.Run? && e.t == t }

  ghost predicate LeadsBy(s: State, t: nat, es: seq<Event>, s': State) { OnlyRuns(es, t) && s' == Exec(s, es) }

  /** Actions of thread t alone lead from s to s'. */
  ghost predicate Leads(s: State, t: nat, s': State) { exists es :: LeadsBy(s, t, es, s') }

  lemma LeadsNowhere(s: State, t: nat)
    ensures Leads(s, t, s)
  {
    assert LeadsBy(s, t, [], s);
  }

  lemma Then(s: State, t: nat, s1: State, ok: bool)
    requires Leads(s, t, s1)
    ensures Leads(s, t, Apply(s1, Run(t, ok)))
  {
    var es :| LeadsBy(s, t, es, s1);
    ExecSplit(s, es, [Run(t, ok)]);
    assert [Run(t, ok)][1..] == [];
    assert LeadsBy(s, t, es + [Run(t, ok)], Apply(s1, Run(t, ok)));
  }

  /** At the limit, or above it. */
  predicate Full(c: Core) { c.maxConnections > 0 && c.activeCount >= c.maxConnections }

  /** The slot: refused exactly at the limit, taken otherwise. */
  lemma SlotAlone(s: State) returns (s': State)
    ensures var t := |s.threads|;
      && Leads(Apply(s, Request), t, s')
      && (if Full(s.c) then At(s', t, Gone) && s'.c == s.c
          else At(s', t, Upgrading) && s'.c == s.c.(activeCount := s.c.activeCount + 1))
  {
    var t := |s.threads|;
    var s0 := Apply(s, Request);
    LeadsNowhere(s0, t);
    var s1 := Apply(s0, Run(t, true));
    Then(s0, t, s0, true);
    if s.c.maxConnections <= 0 || Full(s.c) {
      s' := s1;
    } else {
      Then(s0, t, s1, true);
      s' := Apply(s1, Run(t, true));
    }
  }

  /** The upgrade: a failed one gives the slot back, a good one ends in the table under the next number. */
  lemma UpgradeAlone(s: State, t: nat, ok: bool) returns (s': State)
    requires At(s, t, Upgrading)
    ensures Leads(s, t, s')
    ensures var n := (s.c.issued + 1) % WORD;
      if ok then At(s', t, Open(n)) && s'.c == s.c.(issued := s.c.issued + 1, table := s.c.table.Store(Format(n), t))
      else At(s', t, Gone) && s'.c == s.c.(activeCount := s.c.activeCount - 1)
  {
    LeadsNowhere(s, t);
    Then(s, t, s, ok);
    var s1 := Apply(s, Run(t, ok));
    Then(s, t, s1, true);
    var s2 := Apply(s1, Run(t, true));
    if ok {
      Then(s, t, s2, true);
      s' := Apply(s2, Run(t, true));
    } else {
      s' := s2;
    }
  }

  /** The end of a connection: its entry and its slot are given back, if the entry is there. */
  lemma CloseAlone(s: State, t: nat, n: nat) returns (s': State)
    requires At(s, t, Open(n))
    ensures Leads(s, t, s') && At(s', t, Gone)
    ensures s'.c == if s.c.table.Has(Format(n))
                    then s.c.(activeCount := s.c.activeCount - 1, table := s.c.table.Remove(Format(n))) else s.c
  {
    LeadsNowhere(s, t);
    Then(s, t, s, true);
    var s1 := Apply(s, Run(t, true));
    Then(s, t, s1, true);
    var s2 := Apply(s1, Run(t, true));
    if s.c.table.Has(Format(n)) {
      Then(s, t, s2, true);
      s' := Apply(s2, Run(t, true));
    } else {
      s' := s2;
    }
  }
}
