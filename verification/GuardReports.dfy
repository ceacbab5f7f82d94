/** What a manual action is answered, against the host calls it made. */
module GuardReports {
  import opened Basics
  import opened Power
  import opened Safety
  import ActionGuard
  import opened GuardProtocol
  import Settings

  predicate IsGoodRealCall(e: Event, t: nat) {
    e.Called? && e.t == t && e.executor.Real? && e.ok
  }

  /** The action that ends at `i` ran something on the host for real since it chose its executor
      at `c`. */
  ghost predicate ReallyRan(log: seq<Event>, c: nat, i: nat)
    requires c < i < |log| && log[i].Ended?
  {
    exists b :: c < b < i && IsGoodRealCall(log[b], log[i].t)
  }

  ghost predicate FirstCallFailed(log: seq<Event>, c: nat, i: nat)
    requires c < i < |log| && log[i].Ended?
  {
    exists b :: c < b < i && log[b] == Called(log[i].t, Real, PlanOf(log[i].ticket.op, log[i].ticket.cfg)[0], false)
  }

  /** The block of the action in progress in the log: where its first `k + 1` events end, and what
      follows there. */
  lemma {:induction false} BlockPosition(log: seq<Event>, k: nat) returns (j: nat)
    requires k < |Block(log)|
    ensures j < |log| && log[j] == Block(log)[k]
    ensures forall b :: j < b < |log| && !log[b].Turned? ==> log[b] in Block(log)[k + 1..]
    ensures forall l :: k < l < |Block(log)| ==> exists b :: j < b < |log| && log[b] == Block(log)[l]
  {
    var n := |log| - 1;
    var past, e := log[..n], log[n];
    var init := Block(past);
    if !e.Began? && k < |init| {
      j := BlockPosition(past, k);
      if !e.Turned? {
        assert Block(log)[k + 1..] == init[k + 1..] + [e];
      }
      forall l | k < l < |Block(log)| ensures exists b :: j < b < |log| && log[b] == Block(log)[l] {
        if l < |init| {
          var b :| j < b < |past| && past[b] == Block(past)[l];
          assert log[b] == Block(log)[l];
        } else {
          assert log[n] == Block(log)[l];
        }
      }
    } else {
      j := n;
    }
  }

  /** In the block of an action that is over the first host call decides: if it went well for real,
      something ran, and otherwise nothing did. */
  lemma OverBlock(block: seq<Event>, t: nat, ticket: Ticket, ran: bool)
    requires IsOver(block, t, ticket, ran)
    ensures |block| > 2 && block[1].Chose? && block[1].t == t && (block[1].executor.Real? <==> block[1].live.ManualActionsReady())
    ensures block[2].Called? && block[2] == Called(t, block[1].executor, PlanOf(ticket.op, ticket.cfg)[0], block[2].ok)
    ensures ran ==> block[2].ok
    ensures !ran ==> block[2].executor.Real?
    ensures forall e :: e in block[2..] && IsGoodRealCall(e, t) ==> IsGoodRealCall(block[2], t)
    ensures forall e :: e in block[2..] && e == Called(t, Real, PlanOf(ticket.op, ticket.cfg)[0], false) ==> block[2] == e
  {
    var plan := PlanOf(ticket.op, ticket.cfg);
    var made := if ran then |plan| else |block| - 3;
    var good := if ran then block else block[..|block| - 1];
    assert good[0] == block[0] && good[1] == block[1];
    forall k | 2 <= k < 2 + made ensures block[k] == Called(t, block[1].executor, plan[k - 2], true) {
      assert block[k] == good[2 + (k - 2)];
    }
    forall e | e in block[2..] ensures exists k :: 2 <= k < |block| && e == block[k] {
      var k :| 0 <= k < |block[2..]| && block[2..][k] == e;
      assert e == block[k + 2];
    }
  }

  lemma CallsDecide(log: seq<Event>, i: nat) returns (c: nat)
    requires i < |log| && log[i].Ended? && IsOver(Block(log[..i]), log[i].t, log[i].ticket, log[i].ran)
    ensures var block := Block(log[..i]);
      && |block| > 2 && c < i && log[c] == block[1]
      && (ReallyRan(log, c, i) <==> IsGoodRealCall(block[2], log[i].t))
      && (FirstCallFailed(log, c, i) <==>
            block[2] == Called(log[i].t, Real, PlanOf(log[i].ticket.op, log[i].ticket.cfg)[0], false))
  {
    var past := log[..i];
    var block := Block(past);
    OverBlock(block, log[i].t, log[i].ticket, log[i].ran);
    c := BlockPosition(past, 1);
    var first :| c < first < i && past[first] == block[2];
    forall b | c < b < i && log[b].Called? ensures log[b] in block[2..] {
      assert past[b] == log[b];
    }
  }

  /** A request is answered that commands were executed exactly when its action succeeded. That
      is true of its host calls exactly when a success had its executor chosen while real actions
      were on in the live configuration, and a failure came at the first call. */
  lemma AnswerIsTrueExactlyWhen(actions: seq<Action>, i: nat)
    requires i < |Run(actions).log| && Run(actions).log[i].Ended?
    ensures var log := Run(actions).log;
      exists c: nat :: c < i && log[c].Chose? && log[c].t == log[i].t
        && ((log[i].ran <==> ReallyRan(log, c, i)) <==>
              if log[i].ran then log[c].live.ManualActionsReady() else FirstCallFailed(log, c, i))
  {
    var log := Run(actions).log;
    RunKeepsInv(actions);
    assert Justified(log[..i], log[i]);
    OverBlock(Block(log[..i]), log[i].t, log[i].ticket, log[i].ran);
    var c := CallsDecide(log, i);
  }

  lemma RunAppends(actions: seq<Action>, a: Action)
    ensures Run(actions + [a]) == Next(Run(actions), a)
  {
    assert (actions + [a])[..|actions|] == actions;
  }

  /** A container drain whose executor is chosen after real actions were switched off is answered
      as executed, and ran nothing. */
  lemma SwitchedOffDrainIsAnswered(cfg: Settings.Config, key: ActionGuard.Key, now: int, live: Settings.Config)
    requires cfg.ManualActionsReady() && !live.ManualActionsReady()
    ensures var log := Run([] + [Arrive(cfg, Some(Battery), true, key, DrainDocker)] + [Begin(0, now)]
                           + [Choose(0, live)] + [Call(0, true)] + [End(0)]).log;
      |log| == 4 && log[3].Ended? && log[3].ran && log[2] == Called(0, Recording, StopDocker, true)
  {
    var arrived := [] + [Arrive(cfg, Some(Battery), true, key, DrainDocker)];
    RunAppends([], Arrive(cfg, Some(Battery), true, key, DrainDocker));
    RunAppends(arrived, Begin(0, now));
    RunAppends(arrived + [Begin(0, now)], Choose(0, live));
    RunAppends(arrived + [Begin(0, now)] + [Choose(0, live)], Call(0, true));
    RunAppends(arrived + [Begin(0, now)] + [Choose(0, live)] + [Call(0, true)], End(0));
  }

  /** A power-off whose sync fails is answered as not executed, and stopped the containers. */
  lemma FailedPowerOffIsNotAnswered(cfg: Settings.Config, key: ActionGuard.Key, now: int)
    requires cfg.ManualActionsReady() && cfg.docker.stopEnabled
    ensures var log := Run([] + [Arrive(cfg, Some(Battery), true, key, PowerOffHost)] + [Begin(0, now)]
                           + [Choose(0, cfg)] + [Call(0, true)] + [Call(0, false)] + [End(0)]).log;
      |log| == 5 && log[4].Ended? && !log[4].ran && log[2] == Called(0, Real, StopDocker, true)
  {
    var begun := [] + [Arrive(cfg, Some(Battery), true, key, PowerOffHost)] + [Begin(0, now)];
    PowerOffBegins(cfg, key, now);
    RunAppends(begun, Choose(0, cfg));
    RunAppends(begun + [Choose(0, cfg)], Call(0, true));
    RunAppends(begun + [Choose(0, cfg)] + [Call(0, true)], Call(0, false));
    RunAppends(begun + [Choose(0, cfg)] + [Call(0, true)] + [Call(0, false)], End(0));
  }

  lemma PowerOffBegins(cfg: Settings.Config, key: ActionGuard.Key, now: int)
    requires cfg.ManualActionsReady()
    ensures var s := Run([] + [Arrive(cfg, Some(Battery), true, key, PowerOffHost)] + [Begin(0, now)]);
      s.threads == [Admitted(Ticket(cfg, key, PowerOffHost, now))] && |s.log| == 1
  {
    RunAppends([], Arrive(cfg, Some(Battery), true, key, PowerOffHost));
    RunAppends([] + [Arrive(cfg, Some(Battery), true, key, PowerOffHost)], Begin(0, now));
  }

  // ----- the plans by name

  /** The host actions of an operation, in order. */
  function ActionsOf(op: Operation, cfg: Settings.Config): seq<HostAction> {
    match op
    case DrainDocker => [StopDocker]
    case PowerOffHost => if cfg.docker.stopEnabled then [StopDocker, Sync, PowerOff] else [Sync, PowerOff]
  }

  /** The first `n` actions were done well, in order, since the executor was chosen. */
  predicate DoneInOrder(block: seq<Event>, t: nat, x: Executor, names: seq<HostAction>, n: nat) {
    && |block| == 2 + n && n <= |names|
    && forall k :: 0 <= k < n ==> block[2 + k] == Called(t, x, names[k], true)
  }

  /** A manual host call is the next of its operation by name: containers are stopped before the
      disks are synced, and the disks synced before the host is powered off, each done well first.
      A success did all of them. */
  lemma ManualActionsInOrder(actions: seq<Action>, i: nat)
    requires i < |Run(actions).log|
    ensures var log := Run(actions).log; var block := Block(log[..i]);
      && (log[i].Called? ==>
            && |block| >= 2 && block[0].Began? && block[0].t == log[i].t
            && var names := ActionsOf(block[0].ticket.op, block[0].ticket.cfg);
            && |block| - 2 < |names| && log[i].action == names[|block| - 2]
            && DoneInOrder(block, log[i].t, log[i].executor, names, |block| - 2))
      && (log[i].Ended? && log[i].ran ==>
            && |block| >= 2 && block[1].Chose?
            && var names := ActionsOf(log[i].ticket.op, log[i].ticket.cfg);
            DoneInOrder(block, log[i].t, block[1].executor, names, |names|))
  {
    WorkFollowsThePlan(actions, i);
    var log := Run(actions).log;
    if log[i].Called? {
      var ticket := Block(log[..i])[0].ticket;
      assert PlanOf(ticket.op, ticket.cfg) == ActionsOf(ticket.op, ticket.cfg);
    } else if log[i].Ended? {
      assert PlanOf(log[i].ticket.op, log[i].ticket.cfg) == ActionsOf(log[i].ticket.op, log[i].ticket.cfg);
    }
  }

  // ----- verdicts

  /** What a request is told is a matter of the history alone. It begins exactly when no action is in
      progress and the last success, if any, began its cooldown ago. Otherwise it is a duplicate
      exactly when it carries the key of the action in its way, the one in progress or else the last
      success; and if not, it is told which of the two is in its way. */
  lemma VerdictsFollowTheHistory(actions: seq<Action>, t: nat, now: int)
    requires var s := Run(actions); t < |s.threads| && s.threads[t].Checked?
    ensures var s := Run(actions); var r, c := Next(s, Begin(t, now)), s.threads[t];
      var owner, p, wait := Owner(s.log), LastSuccess(s.log), c.cfg.actions.cooldownSeconds * 1_000_000_000;
      var cooling := p.Some? && wait > 0 && now < s.log[p.value].ticket.now + wait;
      && |r.log| == |s.log| + 1
      && (owner.Some? ==> owner.value < |s.threads| && Active(s.threads[owner.value]))
      && (owner.None? && !cooling <==> r.log[|s.log|] == Began(t, ActionTicket(c, now)))
      && (owner.Some? ==>
            r.log[|s.log|] == Turned(t, if c.key != "" && c.key == s.threads[owner.value].ticket.key then ActionGuard.DuplicateKey
                                        else ActionGuard.InFlight))
      && (owner.None? && cooling ==>
            r.log[|s.log|] == Turned(t, if c.key != "" && c.key == s.log[p.value].ticket.key then ActionGuard.DuplicateKey
                                        else ActionGuard.CoolingDown))
  {
    RunKeepsInv(actions);
  }

  function ActionTicket(c: Thread, now: int): Ticket
    requires c.Checked?
  {
    Ticket(c.cfg, c.key, c.op, now)
  }

  /** A request is checked at all exactly when real actions are on and the battery is the source and
      discharging; else it is told the first reason it fails by. */
  lemma RequestsAreGated(s: System, cfg: Settings.Config, source: Option<Source>, discharging: bool, key: ActionGuard.Key, op: Operation)
    ensures var r := Next(s, Arrive(cfg, source, discharging, key, op));
      if cfg.actions.realEnabled && !cfg.safety.dryRun && source == Some(Battery) && discharging
      then r == s.(threads := s.threads + [Checked(cfg, key, op)]) else r == s
    ensures var block := ActionGuard.SafetyGate(cfg, source, discharging);
      && (block == Some(ActionGuard.RealDisabled) <==> !cfg.actions.realEnabled)
      && (block == Some(ActionGuard.DryRun) <==> cfg.actions.realEnabled && cfg.safety.dryRun)
      && (block == Some(ActionGuard.OnMains) <==>
            cfg.actions.realEnabled && !cfg.safety.dryRun && source == Some(AC))
      && (block == Some(ActionGuard.SourceUnknown) <==>
            cfg.actions.realEnabled && !cfg.safety.dryRun && (source.None? || source == Some(Unknown)))
      && (block == Some(ActionGuard.NotDischarging) <==>
            cfg.actions.realEnabled && !cfg.safety.dryRun && source == Some(Battery) && !discharging)
  {
    assert source.Some? ==> source.value.AC? || source.value.Battery? || source.value.Unknown?;
  }
}
