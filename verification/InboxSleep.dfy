/**
  The inbox nudge (src/evt/loop.c): producers write a loop's wakeup only if its
  owner is asleep or about to be, and the owner announces its sleep before it
  looks at the inbox one last time.  A loop is never left blocked with work in its
  inbox and nothing coming to wake it, for any number of producers and any number
  of sleep sessions.
*/
module InboxSleep {
  import opened Tally

  /** Where a producer stands in __xtc_inbox_push. */
  datatype Producer =
    | Away
    | AtLoad      // pushed; about to load sleeping
    | AtExchange  // saw it set; about to exchange it with 0
    | AtWrite     // took it; about to write the wakeup
    | AtRestore   // the write failed; about to set sleeping again

  /** Where the owner stands. */
  datatype Owner =
    | Awake
    | CheckPub    // sleeping stored; about to load the publish stack
    | CheckWake   // it was empty; about to load the wake stack
    | Withdraw    // found work; about to clear sleeping
    | Blocked     // in its poll
    | Leave       // the poll returned; about to clear sleeping

  /** pub, wake: tasks on the two stacks; bell: wakeups written and not yet consumed
      by a poll; failed: a wakeup write has failed since the owner was last awake. */
  datatype Sys = Sys(pub: nat, wake: nat, sleeping: bool, bell: nat, failed: bool, owner: Owner,
    producers: seq<Producer>)

  datatype Action =
    | Push(i: nat, publish: bool)
    | Produce(i: nat, ok: bool)   // producer i's next step; ok: a wakeup write succeeds
    | TakePub | TakeWake          // the drain's two exchanges
    | PollNow(eat: bool)          // a poll that does not block; eat: it consumes the wakeups
    | SleepBegin
    | OwnerStep
    | PollReturns(eat: bool)      // an event, a wakeup or the time limit

  ghost predicate Init(s: Sys) {
    && s.pub == 0 && s.wake == 0 && !s.sleeping && s.bell == 0 && !s.failed && s.owner == Awake
    && (forall i :: 0 <= i < |s.producers| ==> s.producers[i] == Away)
  }

  ghost predicate Enabled(s: Sys, a: Action) {
    match a
    case Push(i, _) => i < |s.producers| && s.producers[i] == Away
    case Produce(i, _) => i < |s.producers| && s.producers[i] != Away
    case TakePub => s.owner == Awake
    case TakeWake => s.owner == Awake
    case PollNow(_) => s.owner == Awake
    case SleepBegin => s.owner == Awake
    case OwnerStep => s.owner == CheckPub || s.owner == CheckWake || s.owner == Withdraw || s.owner == Leave
    case PollReturns(_) => s.owner == Blocked
  }

  function Set(s: Sys, i: nat, p: Producer): Sys
    requires i < |s.producers|
  {
    s.(producers := s.producers[i := p])
  }

  function Apply(s: Sys, a: Action): Sys
    requires Enabled(s, a)
  {
    match a
    case Push(i, publish) =>
      Set(if publish then s.(pub := s.pub + 1) else s.(wake := s.wake + 1), i, AtLoad)
    case Produce(i, ok) =>
      (match s.producers[i]
       case Away => s
       case AtLoad => Set(s, i, if s.sleeping then AtExchange else Away)
       case AtExchange => Set(s.(sleeping := false), i, if s.sleeping then AtWrite else Away)
       case AtWrite => if ok then Set(s.(bell := s.bell + 1), i, Away) else Set(s.(failed := true), i, AtRestore)
       case AtRestore => Set(s.(sleeping := true), i, Away))
    case TakePub => s.(pub := 0)
    case TakeWake => s.(wake := 0)
    case PollNow(eat) => if eat then s.(bell := 0) else s
    case SleepBegin => s.(sleeping := true, owner := CheckPub)
    case OwnerStep =>
      (match s.owner
       case CheckPub => s.(owner := if s.pub > 0 then Withdraw else CheckWake)
       case CheckWake => s.(owner := if s.wake > 0 then Withdraw else Blocked)
       case _ => s.(sleeping := false, failed := false, owner := Awake))
    case PollReturns(eat) => s.(bell := if eat then 0 else s.bell, owner := Leave)
  }

  ghost predicate IsRun(run: seq<Sys>, acts: seq<Action>) {
    && |run| == |acts| + 1 && Init(run[0])
    && (forall k :: 0 <= k < |acts| ==> StepAt(run, acts, k))
  }

  ghost predicate StepAt(run: seq<Sys>, acts: seq<Action>, k: nat)
    requires |run| == |acts| + 1 && k < |acts|
  {
    Enabled(run[k], acts[k]) && run[k + 1] == Apply(run[k], acts[k])
  }

  function Nudging(): Producer -> nat { (p: Producer) => if p == AtLoad || p == AtExchange then 1 else 0 }
  function Writing(): Producer -> nat { (p: Producer) => if p == AtWrite then 1 else 0 }
  function Restoring(): Producer -> nat { (p: Producer) => if p == AtRestore then 1 else 0 }

  /** Producers that will still look at the flag, that took it, and that took it and
      could not write. */
  ghost function Nudgers(s: Sys): nat { Total(s.producers, Nudging()) }
  ghost function Writers(s: Sys): nat { Total(s.producers, Writing()) }
  ghost function Restorers(s: Sys): nat { Total(s.producers, Restoring()) }

  predicate Asleep(s: Sys) {
    s.owner == CheckPub || s.owner == CheckWake || s.owner == Blocked
  }

  /** Work the owner's last look has not seen. */
  predicate Unseen(s: Sys) {
    (s.pub > 0 && (s.owner == CheckWake || s.owner == Blocked)) || (s.wake > 0 && s.owner == Blocked)
  }

  ghost predicate Inv(s: Sys) {
    // The flag of this session is up, or whoever took it is writing the wakeup ...
    && (Asleep(s) ==> s.sleeping || s.bell > 0 || Writers(s) > 0 || s.failed)
    // ... and if the write failed, the flag is up again or about to be.
    && (Asleep(s) ==> s.sleeping || s.bell > 0 || Writers(s) > 0 || Restorers(s) > 0)
    // Unseen work has its producer still on the way to the flag, unless a wakeup is
    // on its way already.
    && (Unseen(s) && s.sleeping ==> Nudgers(s) > 0 || s.bell > 0 || Writers(s) > 0 || s.failed)
  }

  lemma ProducerCounts(s: Sys, i: nat, p: Producer)
    requires i < |s.producers|
    ensures Total(s.producers[i := p], Nudging()) + Nudging()(s.producers[i]) == Nudgers(s) + Nudging()(p)
    ensures Total(s.producers[i := p], Writing()) + Writing()(s.producers[i]) == Writers(s) + Writing()(p)
    ensures Total(s.producers[i := p], Restoring()) + Restoring()(s.producers[i]) == Restorers(s) + Restoring()(p)
  {
    TotalUpdate(s.producers, Nudging(), i, p);
    TotalUpdate(s.producers, Writing(), i, p);
    TotalUpdate(s.producers, Restoring(), i, p);
  }

  lemma StepKeeps(s: Sys, a: Action)
    requires Inv(s) && Enabled(s, a)
    ensures Inv(Apply(s, a))
  {
    if a.Push? || a.Produce? {
      ProducerCounts(s, a.i, Apply(s, a).producers[a.i]);
    }
  }

  lemma {:induction false} RunKeeps(run: seq<Sys>, acts: seq<Action>, k: nat)
    requires IsRun(run, acts) && k < |run|
    ensures Inv(run[k])
  {
    if k > 0 {
      RunKeeps(run, acts, k - 1);
      assert StepAt(run, acts, k - 1);
      StepKeeps(run[k - 1], acts[k - 1]);
    }
  }

  ghost predicate Someone(s: Sys, p: Producer) {
    exists i :: 0 <= i < |s.producers| && s.producers[i] == p
  }

  /** A loop blocked with work in its inbox has a wakeup waiting, or a producer that
      took its flag and is writing one, or its flag up and a producer on the way to
      it; unless a wakeup write has failed since the loop was last awake. */
  lemma NeverStranded(run: seq<Sys>, acts: seq<Action>, k: nat)
    requires IsRun(run, acts) && k < |run|
    requires run[k].owner == Blocked && (run[k].pub > 0 || run[k].wake > 0) && !run[k].failed
    ensures || run[k].bell > 0
            || Someone(run[k], AtWrite)
            || (run[k].sleeping && (Someone(run[k], AtLoad) || Someone(run[k], AtExchange)))
  {
    RunKeeps(run, acts, k);
    var s := run[k];
    if Writers(s) > 0 {
      var i := TotalHolder(s.producers, Writing());
    } else if s.bell == 0 {
      var i := TotalHolder(s.producers, Nudging());
    }
  }

  /** Failed writes or not, a blocked owner's flag is up, or a wakeup is waiting or
      being written, or the flag is about to be set again: the next push finds the
      flag or need not. */
  lemma FlagNeverLost(run: seq<Sys>, acts: seq<Action>, k: nat)
    requires IsRun(run, acts) && k < |run| && run[k].owner == Blocked
    ensures run[k].sleeping || run[k].bell > 0 || Someone(run[k], AtWrite) || Someone(run[k], AtRestore)
  {
    RunKeeps(run, acts, k);
    var s := run[k];
    if Writers(s) > 0 {
      var i := TotalHolder(s.producers, Writing());
    } else if !s.sleeping && s.bell == 0 {
      var i := TotalHolder(s.producers, Restoring());
    }
  }
}
