/** Manual actions as a concurrent protocol: any number of requests, in any interleaving of their
    atomic steps, with any configurations, clocks and outcomes. */
module GuardProtocol {
  import opened Basics
  import opened Power
  import opened Safety
  import opened ActionGuard
  import Settings

  datatype Operation = PowerOffHost | DrainDocker

  function PlanOf(op: Operation, cfg: Settings.Config): seq<HostAction> {
    match op
    case PowerOffHost => (if cfg.docker.stopEnabled then [StopDocker] else []) + [Sync, PowerOff]
    case DrainDocker => [StopDocker]
  }

  /** An admitted request: what it captured before and at its `begin`. */
  datatype Ticket = Ticket(cfg: Settings.Config, key: Key, op: Operation, now: int)

  datatype Thread =
    | Checked(cfg: Settings.Config, key: Key, op: Operation)
    | Admitted(ticket: Ticket)
    | Acting(ticket: Ticket, executor: Executor, made: nat)
    | Ending(ticket: Ticket, ran: bool)
    | Done

  datatype Action =
    | Arrive(cfg: Settings.Config, source: Option<Source>, discharging: bool, key: Key, op: Operation)
    | Begin(t: nat, now: int)
    | Choose(t: nat, live: Settings.Config)
    | Call(t: nat, ok: bool)
    | End(t: nat)

  datatype Event =
    | Began(t: nat, ticket: Ticket)
    | Turned(t: nat, verdict: Verdict)
    | Chose(t: nat, cfg: Settings.Config, live: Settings.Config, executor: Executor)
    | Called(t: nat, executor: Executor, action: HostAction, ok: bool)
    | Ended(t: nat, ticket: Ticket, ran: bool)

  datatype System = System(guard: Guard, threads: seq<Thread>, log: seq<Event>)

  const START: System := System(FRESH, [], [])

  function Step(s: System, guard: Guard, t: nat, thread: Thread, e: Event): System
    requires t < |s.threads|
  {
    System(guard, s.threads[t := thread], s.log + [e])
  }

  predicate At(s: System, t: nat) {
    t < |s.threads|
  }

  function Next(s: System, a: Action): System {
    match a
    case Arrive(cfg, source, discharging, key, op) =>
      if SafetyGate(cfg, source, discharging).Some? then s
      else s.(threads := s.threads + [Checked(cfg, key, op)])
    case Begin(t, now) =>
      if At(s, t) && s.threads[t].Checked? then
        var c := s.threads[t];
        var verdict := VerdictOf(s.guard, CooldownOf(c.cfg), now, c.key);
        var guard := BeginRegion(s.guard, CooldownOf(c.cfg), now, c.key);
        var ticket := Ticket(c.cfg, c.key, c.op, now);
        if verdict.Begun? then Step(s, guard, t, Admitted(ticket), Began(t, ticket))
        else Step(s, guard, t, Done, Turned(t, verdict))
      else s
    case Choose(t, live) =>
      if At(s, t) && s.threads[t].Admitted? then
        var ticket := s.threads[t].ticket;
        var executor := if live.ManualActionsReady() then Real else Recording;
        Step(s, s.guard, t, Acting(ticket, executor, 0), Chose(t, ticket.cfg, live, executor))
      else s
    case Call(t, outcome) =>
      if At(s, t) && s.threads[t].Acting? && s.threads[t].made < |PlanOf(s.threads[t].ticket.op, s.threads[t].ticket.cfg)| then
        var c := s.threads[t];
        var plan := PlanOf(c.ticket.op, c.ticket.cfg);
        var ok := outcome || c.executor.Recording?;
        var thread := if !ok || c.made + 1 == |plan| then Ending(c.ticket, ok) else c.(made := c.made + 1);
        Step(s, s.guard, t, thread, Called(t, c.executor, plan[c.made], ok))
      else s
    case End(t) =>
      if At(s, t) && s.threads[t].Ending? then
        var c := s.threads[t];
        Step(s, EndRegion(s.guard, c.ticket.now, c.ran), t, Done, Ended(t, c.ticket, c.ran))
      else s
  }

  function Run(actions: seq<Action>): System {
    if actions == [] then START else Next(Run(actions[..|actions| - 1]), actions[|actions| - 1])
  }

  // ----- reading the log

  /** The request whose action is in progress: the last one that began, if it has not ended. */
  function Owner(log: seq<Event>): Option<nat> {
    if log == [] then None
    else
      match log[|log| - 1]
      case Began(t, _) => Some(t)
      case Ended(_, _, _) => None
      case _ => Owner(log[..|log| - 1])
  }

  /** Where the last successful action ended. */
  function LastSuccess(log: seq<Event>): (p: Option<nat>)
    ensures p.Some? ==> p.value < |log| && log[p.value].Ended? && log[p.value].ran
    ensures forall i :: (if p.Some? then p.value < i else 0 <= i) && i < |log| && log[i].Ended? ==> !log[i].ran
  {
    if log == [] then None
    else if log[|log| - 1].Ended? && log[|log| - 1].ran then Some(|log| - 1)
    else LastSuccess(log[..|log| - 1])
  }

  /** The action of a ticket keeps the cooldown it asked for since the success before it. */
  predicate Spaced(log: seq<Event>, ticket: Ticket) {
    var p := LastSuccess(log);
    p.Some? && CooldownOf(ticket.cfg) > 0 ==> ticket.now >= log[p.value].ticket.now + CooldownOf(ticket.cfg)
  }

  /** What the action in progress, or the last one, has done since it began. */
  function Block(log: seq<Event>): seq<Event> {
    if log == [] then []
    else
      var e := log[|log| - 1];
      if e.Began? then [e]
      else if e.Turned? then Block(log[..|log| - 1])
      else Block(log[..|log| - 1]) + [e]
  }

  /** The block of an action that chose its executor, by the live configuration, and has made the
      first `made` calls of its plan, all good. */
  predicate IsWork(block: seq<Event>, t: nat, ticket: Ticket, executor: Executor, made: nat) {
    var plan := PlanOf(ticket.op, ticket.cfg);
    && made <= |plan| && |block| == 2 + made
    && block[0] == Began(t, ticket)
    && block[1].Chose? && block[1] == Chose(t, ticket.cfg, block[1].live, executor)
    && (executor.Real? <==> block[1].live.ManualActionsReady())
    && forall k :: 0 <= k < made ==> block[2 + k] == Called(t, executor, plan[k], true)
  }

  /** The block of an action that is over: the whole plan if it succeeded, and otherwise some good
      calls and then the real one that failed. */
  predicate IsOver(block: seq<Event>, t: nat, ticket: Ticket, ran: bool) {
    var plan := PlanOf(ticket.op, ticket.cfg);
    && |block| >= 2 && block[0] == Began(t, ticket) && block[1].Chose?
    && if ran then IsWork(block, t, ticket, block[1].executor, |plan|)
       else
         && 3 <= |block| < 3 + |plan| && block[1].executor.Real?
         && IsWork(block[..|block| - 1], t, ticket, Real, |block| - 3)
         && block[|block| - 1] == Called(t, Real, plan[|block| - 3], false)
  }

  /** What must have happened for an event to be in the log: actions do not overlap, host calls
      belong to the action in progress, and each action kept its distance from the last success. */
  predicate Justified(past: seq<Event>, e: Event) {
    match e
    case Began(t, ticket) => Owner(past).None? && Spaced(past, ticket)
    case Turned(t, verdict) => !verdict.Begun?
    case Chose(t, cfg, live, executor) =>
      && Owner(past) == Some(t) && cfg.ManualActionsReady() && (executor.Real? <==> live.ManualActionsReady())
    case Called(t, executor, action, ok) =>
      && Owner(past) == Some(t)
      && var block := Block(past);
      && |block| >= 2 && block[0].Began? && IsWork(block, t, block[0].ticket, executor, |block| - 2)
      && var plan := PlanOf(block[0].ticket.op, block[0].ticket.cfg);
      |block| - 2 < |plan| && action == plan[|block| - 2]
    case Ended(t, ticket, ran) => Owner(past) == Some(t) && Spaced(past, ticket) && IsOver(Block(past), t, ticket, ran)
  }

  // ----- the invariant

  predicate Active(t: Thread) {
    t.Admitted? || t.Acting? || t.Ending?
  }

  predicate Tells(block: seq<Event>, t: nat, thread: Thread) {
    match thread
    case Admitted(ticket) => block == [Began(t, ticket)]
    case Acting(ticket, executor, made) =>
      made < |PlanOf(ticket.op, ticket.cfg)| && IsWork(block, t, ticket, executor, made)
    case Ending(ticket, ran) => IsOver(block, t, ticket, ran)
    case _ => true
  }

  predicate GuardInv(s: System) {
    && (s.guard.inflight <==> Owner(s.log).Some?)
    && (match LastSuccess(s.log)
        case None => s.guard.last.None?
        case Some(p) => s.guard.last == Some(s.log[p].ticket.now) && s.guard.lastKey == s.log[p].ticket.key)
  }

  /** The thread of the action in progress is the active one, and no other is. */
  predicate ThreadInv(s: System) {
    && (Owner(s.log).Some? ==> Owner(s.log).value < |s.threads|)
    && forall t :: 0 <= t < |s.threads| ==>
         && (Active(s.threads[t]) <==> Owner(s.log) == Some(t))
         && (s.threads[t].Checked? ==> s.threads[t].cfg.ManualActionsReady())
  }

  /** What is known of the action in progress. */
  predicate TicketInv(s: System) {
    Owner(s.log).Some? && Owner(s.log).value < |s.threads| && Active(s.threads[Owner(s.log).value]) ==>
      var ticket := s.threads[Owner(s.log).value].ticket;
      s.guard.pendingKey == ticket.key && ticket.cfg.ManualActionsReady() && Spaced(s.log, ticket)
  }

  predicate WorkInv(s: System) {
    Owner(s.log).Some? && Owner(s.log).value < |s.threads| ==>
      Tells(Block(s.log), Owner(s.log).value, s.threads[Owner(s.log).value])
  }

  predicate LogInv(log: seq<Event>) {
    forall i :: 0 <= i < |log| ==> Justified(log[..i], log[i])
  }

  predicate Inv(s: System) {
    GuardInv(s) && ThreadInv(s) && TicketInv(s) && WorkInv(s) && LogInv(s.log)
  }

  lemma Appended(log: seq<Event>, e: Event)
    ensures Owner(log + [e]) == if e.Began? then Some(e.t) else if e.Ended? then None else Owner(log)
    ensures Block(log + [e]) == if e.Began? then [e] else if e.Turned? then Block(log) else Block(log) + [e]
    ensures LastSuccess(log + [e]) == if e.Ended? && e.ran then Some(|log|) else LastSuccess(log)
  {
    assert (log + [e])[..|log|] == log;
  }

  lemma NextIsJustified(s: System, a: Action)
    requires Inv(s) && Next(s, a).log != s.log
    ensures var r := Next(s, a);
      && |r.log| == |s.log| + 1 && r.log == s.log + [r.log[|s.log|]]
      && Justified(s.log, r.log[|s.log|])
  {
  }

  lemma GuardFollows(s: System, a: Action)
    requires GuardInv(s) && ThreadInv(s) && TicketInv(s) && Next(s, a).log != s.log
    ensures var r := Next(s, a);
      && |r.log| == |s.log| + 1 && r.log == s.log + [r.log[|s.log|]]
      && var e := r.log[|s.log|];
      && (r.guard.inflight <==> e.Began? || (s.guard.inflight && !e.Ended?))
      && if e.Ended? && e.ran then r.guard.last == Some(e.ticket.now) && r.guard.lastKey == e.ticket.key
         else r.guard.last == s.guard.last && r.guard.lastKey == s.guard.lastKey
  {
  }

  lemma NextKeepsGuardInv(s: System, a: Action)
    requires GuardInv(s) && ThreadInv(s) && TicketInv(s)
    ensures GuardInv(Next(s, a))
  {
    var r := Next(s, a);
    if r.log != s.log {
      GuardFollows(s, a);
      Appended(s.log, r.log[|s.log|]);
    }
  }

  lemma NextIsStep(s: System, a: Action)
    requires Next(s, a).log != s.log
    ensures var r := Next(s, a);
      && |r.log| == |s.log| + 1 && r.log[|s.log|].t < |s.threads|
      && var t := r.log[|s.log|].t;
      && r == Step(s, r.guard, t, r.threads[t], r.log[|s.log|])
      && (Active(r.threads[t]) <==> !r.log[|s.log|].Ended? && !r.log[|s.log|].Turned?)
      && (Active(s.threads[t]) <==> !r.log[|s.log|].Began? && !r.log[|s.log|].Turned?)
      && !r.threads[t].Checked?
  {
  }

  lemma NextKeepsThreadInv(s: System, a: Action)
    requires GuardInv(s) && ThreadInv(s)
    ensures ThreadInv(Next(s, a))
  {
    var r := Next(s, a);
    if r.log != s.log {
      NextIsStep(s, a);
      Appended(s.log, r.log[|s.log|]);
      assert r.log[|s.log|].Began? ==> !s.guard.inflight;
    }
  }

  lemma StaysSpaced(log: seq<Event>, e: Event, ticket: Ticket)
    requires Spaced(log, ticket) && !e.Ended?
    ensures Spaced(log + [e], ticket)
  {
    Appended(log, e);
  }

  /** What is known of the action in progress is known when it begins, and nothing but its end
      changes it. */
  lemma TicketGoesOn(s: System, a: Action)
    requires GuardInv(s) && ThreadInv(s) && TicketInv(s) && Next(s, a).log != s.log
    ensures var r := Next(s, a);
      && |r.log| == |s.log| + 1
      && var e := r.log[|s.log|];
      && e.t < |r.threads|
      && (!e.Turned? && !e.Ended? ==>
            var ticket := r.threads[e.t].ticket;
            r.guard.pendingKey == ticket.key && ticket.cfg.ManualActionsReady() && Spaced(s.log, ticket))
      && (e.Turned? ==> r.guard == s.guard)
  {
  }

  lemma NextKeepsTicketInv(s: System, a: Action)
    requires GuardInv(s) && ThreadInv(s) && TicketInv(s)
    ensures TicketInv(Next(s, a))
  {
    var r := Next(s, a);
    if r.log != s.log {
      NextIsStep(s, a);
      TicketGoesOn(s, a);
      var e := r.log[|s.log|];
      Appended(s.log, e);
      if Owner(r.log).Some? && Active(r.threads[Owner(r.log).value]) {
        StaysSpaced(s.log, e, r.threads[Owner(r.log).value].ticket);
      }
    }
  }

  /** The event of the action in progress extends its block to what its new place tells. */
  predicate BlockGoesOn(s: System, r: System) {
    && |r.log| == |s.log| + 1
    && var e := r.log[|s.log|];
    && e.t < |r.threads|
    && (!e.Turned? ==> Tells(if e.Began? then [e] else Block(s.log) + [e], e.t, r.threads[e.t]))
  }

  lemma GuardStepGoesOn(s: System, a: Action)
    requires ThreadInv(s) && WorkInv(s) && Next(s, a).log != s.log && (a.Begin? || a.End?)
    ensures BlockGoesOn(s, Next(s, a))
  {
  }

  lemma ChooseGoesOn(s: System, t: nat, live: Settings.Config)
    requires ThreadInv(s) && WorkInv(s) && Next(s, Choose(t, live)).log != s.log
    ensures BlockGoesOn(s, Next(s, Choose(t, live)))
  {
  }

  lemma WorkExtends(block: seq<Event>, t: nat, ticket: Ticket, executor: Executor, made: nat, ok: bool)
    requires IsWork(block, t, ticket, executor, made) && made < |PlanOf(ticket.op, ticket.cfg)| && (ok || executor.Real?)
    ensures var plan := PlanOf(ticket.op, ticket.cfg); var longer := block + [Called(t, executor, plan[made], ok)];
      && (ok ==> IsWork(longer, t, ticket, executor, made + 1))
      && (!ok || made + 1 == |plan| ==> IsOver(longer, t, ticket, ok))
  {
    var longer := block + [Called(t, executor, PlanOf(ticket.op, ticket.cfg)[made], ok)];
    assert longer[..|longer| - 1] == block;
    assert longer[0] == block[0] && longer[1] == block[1];
  }

  lemma CallGoesOn(s: System, t: nat, ok: bool)
    requires ThreadInv(s) && WorkInv(s) && Next(s, Call(t, ok)).log != s.log
    ensures BlockGoesOn(s, Next(s, Call(t, ok)))
  {
    var c := s.threads[t];
    WorkExtends(Block(s.log), t, c.ticket, c.executor, c.made, ok || c.executor.Recording?);
  }

  lemma WorkGoesOn(s: System, a: Action)
    requires ThreadInv(s) && WorkInv(s) && Next(s, a).log != s.log
    ensures BlockGoesOn(s, Next(s, a))
  {
    match a
    case Choose(t, live) => ChooseGoesOn(s, t, live);
    case Call(t, ok) => CallGoesOn(s, t, ok);
    case _ => GuardStepGoesOn(s, a);
  }

  lemma StepKeepsWorkInv(s: System, guard: Guard, t: nat, thread: Thread, e: Event)
    requires ThreadInv(s) && WorkInv(s) && t < |s.threads| && e.t == t
    requires if e.Turned? then !Active(s.threads[t])
             else Tells(if e.Began? then [e] else Block(s.log) + [e], t, thread)
    requires !e.Turned? && !e.Began? ==> Active(s.threads[t])
    ensures WorkInv(Step(s, guard, t, thread, e))
  {
    Appended(s.log, e);
    if e.Turned? {
      assert Owner(s.log) != Some(t);
    }
  }

  lemma NextKeepsWorkInv(s: System, a: Action)
    requires ThreadInv(s) && WorkInv(s)
    ensures WorkInv(Next(s, a))
  {
    var r := Next(s, a);
    if r.log != s.log {
      WorkGoesOn(s, a);
      NextIsStep(s, a);
      var e := r.log[|s.log|];
      StepKeepsWorkInv(s, r.guard, e.t, r.threads[e.t], e);
    }
  }

  lemma LogInvExtends(log: seq<Event>, e: Event)
    requires LogInv(log) && Justified(log, e)
    ensures LogInv(log + [e])
  {
    var r := log + [e];
    forall i | 0 <= i < |r| ensures Justified(r[..i], r[i]) {
      assert r[..i] == if i < |log| then log[..i] else log;
    }
  }

  lemma NextKeepsInv(s: System, a: Action)
    requires Inv(s)
    ensures Inv(Next(s, a))
  {
    NextKeepsGuardInv(s, a);
    NextKeepsThreadInv(s, a);
    NextKeepsTicketInv(s, a);
    NextKeepsWorkInv(s, a);
    var r := Next(s, a);
    if r.log != s.log {
      NextIsJustified(s, a);
      LogInvExtends(s.log, r.log[|s.log|]);
    }
  }

  lemma {:induction false} RunKeepsInv(actions: seq<Action>)
    ensures Inv(Run(actions))
  {
    if actions != [] {
      RunKeepsInv(actions[..|actions| - 1]);
      NextKeepsInv(Run(actions[..|actions| - 1]), actions[|actions| - 1]);
    }
  }

  // ----- what holds over every interleaving

  /** At most one action is in flight, and the guard says so. */
  lemma AtMostOneInFlight(actions: seq<Action>)
    ensures var s := Run(actions);
      && (forall t, u :: 0 <= t < u < |s.threads| ==> !(Active(s.threads[t]) && Active(s.threads[u])))
      && (s.guard.inflight <==> exists t :: 0 <= t < |s.threads| && Active(s.threads[t]))
  {
    var s := Run(actions);
    RunKeepsInv(actions);
    if s.guard.inflight {
      assert Active(s.threads[Owner(s.log).value]);
    }
  }

  lemma OwnerStays(past: seq<Event>, e: Event, t: nat)
    requires Justified(past, e) && Owner(past) == Some(t) && !(e.Ended? && e.t == t)
    ensures Owner(past + [e]) == Some(t)
  {
    Appended(past, e);
  }

  lemma {:induction false} OwnerLasts(log: seq<Event>, i: nat, j: nat)
    requires LogInv(log) && i < j <= |log| && log[i].Began?
    requires forall k :: i < k < j ==> !(log[k].Ended? && log[k].t == log[i].t)
    ensures Owner(log[..j]) == Some(log[i].t)
  {
    assert log[..j] == log[..j - 1] + [log[j - 1]];
    if j == i + 1 {
      Appended(log[..i], log[i]);
    } else {
      OwnerLasts(log, i, j - 1);
      OwnerStays(log[..j - 1], log[j - 1], log[i].t);
    }
  }

  /** Actions never interleave on the host: between the start of one action and a host call, or
      the start, of another, the first one has ended. */
  lemma ActionsNeverOverlap(actions: seq<Action>, i: nat, j: nat)
    requires var log := Run(actions).log; i < j < |log| && log[i].Began?
    requires var log := Run(actions).log; log[j].Began? || (log[j].Called? && log[j].t != log[i].t)
    ensures var log := Run(actions).log; exists k :: i < k < j && log[k].Ended? && log[k].t == log[i].t
  {
    var log := Run(actions).log;
    RunKeepsInv(actions);
    assert Justified(log[..j], log[j]);
    if forall k :: i < k < j ==> !(log[k].Ended? && log[k].t == log[i].t) {
      OwnerLasts(log, i, j);
    }
  }

  /** A later success began at least its own cooldown after the success before it, at `i`. */
  lemma NextSuccessIsSpaced(actions: seq<Action>, i: nat, j: nat)
    requires var log := Run(actions).log;
      && i < j < |log| && log[i].Ended? && log[i].ran && log[j].Ended? && log[j].ran
      && forall k :: i < k < j && log[k].Ended? ==> !log[k].ran
    ensures var log := Run(actions).log; CooldownOf(log[j].ticket.cfg) > 0 ==>
      log[j].ticket.now - log[i].ticket.now >= CooldownOf(log[j].ticket.cfg)
  {
    var log := Run(actions).log;
    RunKeepsInv(actions);
    assert Justified(log[..j], log[j]);
    assert LastSuccess(log[..j]) == Some(i) by {
      var p := LastSuccess(log[..j]);
      assert log[..j][i] == log[i];
      assert p.Some? && log[..j][p.value] == log[p.value];
    }
  }

  /** Any two successes, when those after the first have positive cooldowns: the later one began at least its cooldown after the earlier one. */
  lemma {:induction false} AnyTwoSuccessesAreSpaced(actions: seq<Action>, i: nat, j: nat)
    requires var log := Run(actions).log;
      && i < j < |log| && log[i].Ended? && log[i].ran && log[j].Ended? && log[j].ran
      && forall k :: i < k <= j && log[k].Ended? && log[k].ran ==> CooldownOf(log[k].ticket.cfg) > 0
    ensures var log := Run(actions).log;
      log[j].ticket.now - log[i].ticket.now >= CooldownOf(log[j].ticket.cfg)
    decreases j - i
  {
    var log := Run(actions).log;
    if forall k :: i < k < j && log[k].Ended? ==> !log[k].ran {
      NextSuccessIsSpaced(actions, i, j);
    } else {
      var k :| i < k < j && log[k].Ended? && log[k].ran;
      AnyTwoSuccessesAreSpaced(actions, i, k);
      AnyTwoSuccessesAreSpaced(actions, k, j);
    }
  }

  predicate ArrivesNormalized(a: Action) {
    a.Arrive? ==> Settings.Normalized(a.cfg)
  }

  /** Every configuration a request has captured gives a positive cooldown. */
  predicate CoolsDown(s: System) {
    && (forall t :: 0 <= t < |s.threads| && s.threads[t].Checked? ==> CooldownOf(s.threads[t].cfg) > 0)
    && (forall t :: 0 <= t < |s.threads| && Active(s.threads[t]) ==> CooldownOf(s.threads[t].ticket.cfg) > 0)
    && (forall i :: 0 <= i < |s.log| && s.log[i].Ended? ==> CooldownOf(s.log[i].ticket.cfg) > 0)
  }

  lemma NormalizedCoolsDown(cfg: Settings.Config)
    requires Settings.Normalized(cfg)
    ensures CooldownOf(cfg) > 0
  {
    Settings.NormalizationIdempotentAndSane(cfg);
  }

  lemma NextKeepsCoolsDown(s: System, a: Action)
    requires CoolsDown(s) && (a.Arrive? ==> CooldownOf(a.cfg) > 0)
    ensures CoolsDown(Next(s, a))
  {
  }

  lemma {:induction false} RunCoolsDown(actions: seq<Action>)
    requires forall i :: 0 <= i < |actions| ==> ArrivesNormalized(actions[i])
    ensures CoolsDown(Run(actions))
  {
    if actions != [] {
      var a := actions[|actions| - 1];
      RunCoolsDown(actions[..|actions| - 1]);
      assert ArrivesNormalized(a);
      if a.Arrive? {
        NormalizedCoolsDown(a.cfg);
      }
      NextKeepsCoolsDown(Run(actions[..|actions| - 1]), a);
    }
  }

  /** When every request is checked against a normalized configuration, any two successes are at
      least the later one's cooldown apart. */
  lemma PublishedSuccessesAreSpaced(actions: seq<Action>, i: nat, j: nat)
    requires forall k :: 0 <= k < |actions| ==> ArrivesNormalized(actions[k])
    requires var log := Run(actions).log; i < j < |log| && log[i].Ended? && log[i].ran && log[j].Ended? && log[j].ran
    ensures var log := Run(actions).log;
      log[j].ticket.now - log[i].ticket.now >= CooldownOf(log[j].ticket.cfg) > 0
  {
    RunCoolsDown(actions);
    AnyTwoSuccessesAreSpaced(actions, i, j);
  }

  lemma {:induction false} ChoicesAreReady(log: seq<Event>, n: nat)
    requires LogInv(log) && n <= |log|
    ensures forall e :: e in Block(log[..n]) && e.Chose? ==> e.cfg.ManualActionsReady()
  {
    if n > 0 {
      ChoicesAreReady(log, n - 1);
      assert log[..n][..n - 1] == log[..n - 1];
      assert Justified(log[..n - 1], log[n - 1]);
    }
  }

  /** The host call `e` is the next action of the plan, after all the earlier ones succeeded, and a
      real one only with real actions on in both configurations: the one the request was checked
      against, and the one its executor was chosen by. */
  predicate IsNextCall(block: seq<Event>, e: Event) {
    && e.Called? && |block| >= 2 && block[0].Began? && IsWork(block, e.t, block[0].ticket, e.executor, |block| - 2)
    && (var plan := PlanOf(block[0].ticket.op, block[0].ticket.cfg);
        |block| - 2 < |plan| && e.action == plan[|block| - 2])
    && (e.executor.Real? ==>
          block[0].ticket.cfg.ManualActionsReady() && block[1].Chose? && block[1].live.ManualActionsReady())
  }

  /** A success means the whole plan was carried out, in order, by one executor; a power-off in
      particular follows a good sync. Every host call is the next of its plan. */
  lemma WorkFollowsThePlan(actions: seq<Action>, i: nat)
    requires i < |Run(actions).log|
    ensures var log := Run(actions).log; var block := Block(log[..i]);
      && (log[i].Ended? && log[i].ran ==>
            var ticket := log[i].ticket;
            |block| >= 2 && block[1].Chose?
            && IsWork(block, log[i].t, ticket, block[1].executor, |PlanOf(ticket.op, ticket.cfg)|))
      && (log[i].Called? ==> IsNextCall(block, log[i]))
  {
    var log := Run(actions).log;
    RunKeepsInv(actions);
    assert Justified(log[..i], log[i]);
    ChoicesAreReady(log, i);
    if log[i].Called? {
      assert Block(log[..i])[1] in Block(log[..i]);
    }
  }

  /** The last time and key the guard remembers are those of the last success, whatever began or
      failed since. */
  lemma OnlySuccessesAreRemembered(actions: seq<Action>)
    ensures var s := Run(actions);
      match LastSuccess(s.log)
      case None => s.guard.last.None?
      case Some(p) => s.guard.last == Some(s.log[p].ticket.now) && s.guard.lastKey == s.log[p].ticket.key
  {
    RunKeepsInv(actions);
  }

  /** No key lingers: whenever no action is in flight the guard holds none as pending. */
  lemma {:induction false} NoKeyLingers(actions: seq<Action>)
    ensures !Run(actions).guard.inflight ==> Run(actions).guard.pendingKey == ""
  {
    if actions != [] {
      NoKeyLingers(actions[..|actions| - 1]);
    }
  }

  /** The configuration an action of the run reads, if any, keeps real actions off. */
  predicate Dry(a: Action) {
    match a
    case Arrive(cfg, _, _, _, _) => !cfg.ManualActionsReady()
    case Choose(_, live) => !live.ManualActionsReady()
    case _ => true
  }

  /** While every configuration read keeps real actions off, no manual action begins at all. */
  lemma {:induction false} DryRunNeverBegins(actions: seq<Action>)
    requires forall i :: 0 <= i < |actions| ==> Dry(actions[i])
    ensures Run(actions) == START
  {
    if actions != [] {
      DryRunNeverBegins(actions[..|actions| - 1]);
    }
  }
}
