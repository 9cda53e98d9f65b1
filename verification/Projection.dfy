/** Sweep timing is unobservable: each address evolves as if it were alone. */
module Projection {
  import opened Wrappers
  import opened RemoteAddressStatus
  import opened FailBan

  /** The same event in a run of its own: if the sweep did not meet the address, it now reads the clock at the pop. */
  function Alone(e: Event): Event {
    if e.addr in e.sweep then e else e.(sweep := e.sweep[e.addr := Reads(e.start, e.start)])
  }

  /** The run of one address alone: its own events, at the same times, with the same delays. */
  function Project(log: seq<Event>, a: Addr): seq<Event> {
    if log == [] then []
    else
      var e := log[|log| - 1];
      Project(log[..|log| - 1], a) + (if e.addr == a then [Alone(e)] else [])
  }

  /** The decisions taken at the events of one address. */
  function Decisions(cfg: Config, log: seq<Event>, a: Addr): seq<Option<int>> {
    if log == [] then []
    else
      var e, before := log[|log| - 1], log[..|log| - 1];
      Decisions(cfg, before, a) + (if e.addr == a then [Decision(cfg, State(cfg, before), e)] else [])
  }

  function LastReading(log: seq<Event>): int
    requires log != []
  {
    log[|log| - 1].stamped
  }

  /** The full run has the same record of `a`, or none where that record is already unblocked and expired. */
  ghost predicate AgreeAt(full: Table, alone: Table, a: Addr, t: int) {
    && (a in full ==> a in alone && full[a] == alone[a])
    && (a in alone && a !in full ==> Removable(alone[a], Reads(t, t)))
  }

  /** Expired only turns on and blocked only turns off as the clock advances. */
  lemma RemovableIsMonotone(r: Record, t: Reads, u: Reads)
    requires Removable(r, t) && t.blocked <= u.blocked && t.expired <= u.expired
    ensures Removable(r, u)
  {
  }

  lemma OwnEventAgrees(cfg: Config, full: Table, alone: Table, e: Event, t: int)
    requires AgreeAt(full, alone, e.addr, t) && t <= e.start && ReadsInOrder(e) && full.Keys <= e.sweep.Keys
    ensures Decision(cfg, full, e) == Decision(cfg, alone, Alone(e))
    ensures AgreeAt(Step(cfg, full, e), Step(cfg, alone, Alone(e)), e.addr, e.stamped)
  {
    var a, e' := e.addr, Alone(e);
    if a in alone && a !in full {
      RemovableIsMonotone(alone[a], Reads(t, t), e'.sweep[a]);
    }
    assert a in Swept(full, e.sweep) <==> a in Swept(alone, e'.sweep);
    if Countable(cfg, a) {
      assert CountedRecord(cfg, full, e) == CountedRecord(cfg, alone, e');
    } else if a in alone && a !in Swept(alone, e'.sweep) {
      assert a !in Swept(full, e.sweep);
    }
  }

  lemma OtherEventAgrees(cfg: Config, full: Table, alone: Table, e: Event, a: Addr, t: int)
    requires AgreeAt(full, alone, a, t) && t <= e.start && ReadsInOrder(e) && e.addr != a
    ensures AgreeAt(Step(cfg, full, e), alone, a, e.stamped)
  {
    if a in alone && a !in Step(cfg, full, e) {
      var from := if a in full then e.sweep[a] else Reads(t, t);
      RemovableIsMonotone(alone[a], from, Reads(e.stamped, e.stamped));
    }
  }

  lemma AloneIsOrdered(e: Event)
    requires ReadsInOrder(e)
    ensures ReadsInOrder(Alone(e)) && Alone(e).sweep.Keys == e.sweep.Keys + {e.addr}
  {
  }

  lemma StepKeys(cfg: Config, m: Table, e: Event)
    ensures Step(cfg, m, e).Keys <= m.Keys + {e.addr}
  {
  }

  lemma AloneGrows(cfg: Config, alone: seq<Event>, e: Event)
    requires Genuine(cfg, alone) && State(cfg, alone).Keys <= {e.addr}
    requires alone != [] ==> LastReading(alone) <= e.start
    requires ReadsInOrder(e) && DelayOk(cfg, e.delay)
    ensures Genuine(cfg, alone + [Alone(e)]) && State(cfg, alone + [Alone(e)]).Keys <= {e.addr}
  {
    var m := State(cfg, alone);
    AloneIsOrdered(e);
    GenuineAppend(cfg, alone, Alone(e));
    StateAppend(cfg, alone, Alone(e));
    StepKeys(cfg, m, Alone(e));
  }

  /** The run of one address alone is a run that can happen: nothing else gets into its table. */
  lemma {:induction false} AloneIsGenuine(cfg: Config, log: seq<Event>, a: Addr)
    requires Genuine(cfg, log)
    ensures Genuine(cfg, Project(log, a)) && State(cfg, Project(log, a)).Keys <= {a}
    ensures Project(log, a) != [] ==> log != [] && LastReading(Project(log, a)) <= LastReading(log)
  {
    if log != [] {
      var before, e := log[..|log| - 1], log[|log| - 1];
      AloneIsGenuine(cfg, before, a);
      if e.addr == a {
        AloneGrows(cfg, Project(before, a), e);
      } else {
        assert Project(log, a) == Project(before, a);
      }
    }
  }

  lemma DecisionsAppend(cfg: Config, log: seq<Event>, e: Event)
    ensures Decisions(cfg, log + [e], e.addr) == Decisions(cfg, log, e.addr) + [Decision(cfg, State(cfg, log), e)]
  {
    assert (log + [e])[..|log|] == log;
  }

  lemma {:induction false} RunsAgree(cfg: Config, log: seq<Event>, a: Addr)
    requires Genuine(cfg, log)
    ensures Decisions(cfg, log, a) == Decisions(cfg, Project(log, a), a)
    ensures log != [] ==> AgreeAt(State(cfg, log), State(cfg, Project(log, a)), a, LastReading(log))
  {
    if log != [] {
      var before, e := log[..|log| - 1], log[|log| - 1];
      var alone := Project(before, a);
      RunsAgree(cfg, before, a);
      var t := if before == [] then e.start else LastReading(before);
      if e.addr == a {
        OwnEventAgrees(cfg, State(cfg, before), State(cfg, alone), e, t);
        StateAppend(cfg, alone, Alone(e));
        DecisionsAppend(cfg, alone, Alone(e));
      } else {
        OtherEventAgrees(cfg, State(cfg, before), State(cfg, alone), e, a, t);
        assert Project(log, a) == alone;
      }
    }
  }

  /**
   * For every history, the block decisions for an address and their durations are those of the run
   * of that address alone, and that run can happen too.
   */
  lemma SweepTimingIsUnobservable(cfg: Config, log: seq<Event>, a: Addr)
    requires Genuine(cfg, log)
    ensures Genuine(cfg, Project(log, a))
    ensures Decisions(cfg, log, a) == Decisions(cfg, Project(log, a), a)
    ensures log != [] ==> AgreeAt(State(cfg, log), State(cfg, Project(log, a)), a, LastReading(log))
  {
    AloneIsGenuine(cfg, log, a);
    RunsAgree(cfg, log, a);
  }

  /** Right after a failure of `a` its record is there, so it is the record of the run alone. */
  lemma OwnRecordIsExact(cfg: Config, log: seq<Event>, a: Addr)
    requires Genuine(cfg, log) && log != [] && log[|log| - 1].addr == a && Countable(cfg, a)
    ensures a in State(cfg, log) && a in State(cfg, Project(log, a))
    ensures State(cfg, log)[a] == State(cfg, Project(log, a))[a]
  {
    RunsAgree(cfg, log, a);
  }
}
