/** The loop of Alerter.Run and the handlers that disturb it, as an object whose methods are the steps of a run. */
module AlertHub {
  import opened Alerts
  import opened AlertLoop
  import opened Remediation

  class Hub {
    const alerter: Alerter
    const remediator: Remediator
    var pending: seq<Alert>
    var verdict: Verdict
    ghost var log: seq<Entry>

    ghost predicate Valid()
      reads this, alerter, remediator, remediator.Repr
    {
      && remediator.Valid()
      && this !in remediator.Repr && alerter as object !in remediator.Repr
      && alerter as object != remediator && alerter as object != this
    }

    ghost function View(): Sys
      reads this, alerter, remediator
    {
      Sys(alerter.states, remediator.attempts, pending, verdict, log)
    }

    constructor ()
      ensures Valid() && View() == EMPTY && fresh(alerter) && fresh(remediator) && fresh(remediator.Repr)
    {
      alerter := new Alerter();
      remediator := new Remediator();
      pending, verdict, log := [], Undecided, [];
    }

    /** The evaluation of a tick. */
    method Poll(now: int, views: seq<HostRules>)
      requires Valid() && pending == []
      modifies this, alerter
      ensures Valid() && View() == Step(old(View()), Evaluate(now, views))
    {
      pending := alerter.Evaluate(views, now);
      verdict := Undecided;
      log := log + Entries(Observations(views), now);
    }

    /** Reports whether the alert is to be held back because a fix ran. */
    method TryRemediate(a: Alert, r: Remedy) returns (held: bool)
      requires Valid()
      modifies remediator, remediator.Repr
      ensures Valid() && fresh(remediator.Repr - old(remediator.Repr))
      ensures held == Decision(old(remediator.attempts), a, r).Hold?
      ensures remediator.attempts == Spent(old(remediator.attempts), a, r)
    {
      var key := a.key.agent + "|" + a.key.rule;
      if !a.firing {
        remediator.Clear(key);
        return false;
      }
      if !r.scripted {
        return false;
      }
      if !r.online {
        return false;
      }
      if r.script == "" {
        return false;
      }
      var ok := remediator.Allow(key, r.allowAt);
      if !ok {
        return false;
      }
      return r.loadable;
    }

    /** The loop asks for a fix of the transition in hand. */
    method AskForFix(r: Remedy)
      requires Valid() && pending != [] && verdict.Undecided?
      modifies this, remediator, remediator.Repr
      ensures Valid() && fresh(remediator.Repr - old(remediator.Repr))
      ensures View() == Step(old(View()), Remediate(r))
    {
      ghost var noted := Noted(remediator.attempts, pending[0], r);
      var held := TryRemediate(pending[0], r);
      log := log + noted;
      verdict := if held then Hold(r.allowAt) else Send;
    }

    /** It is held if a fix ran and sent otherwise, and the loop goes on to the next. */
    method CarryOut(at: int)
      requires Valid() && pending != [] && !verdict.Undecided?
      modifies this, alerter
      ensures Valid() && View() == Step(old(View()), Settle(at))
    {
      var a := pending[0];
      log := log + [Outcome(a, verdict, at)];
      if verdict.Hold? {
        alerter.Hold(a.key, at);
      }
      pending := pending[1..];
      verdict := Undecided;
    }

    /** Called by the handlers that remove a host, at any time. */
    method ForgetHost(agent: string)
      requires Valid()
      modifies this, alerter
      ensures Valid() && View() == Step(old(View()), Forget(agent))
    {
      alerter.Forget(agent);
      log := log + [Forgot(agent)];
    }
  }
}
