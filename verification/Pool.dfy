/** The connection pool as a protocol between tasks: a permit, then an idle or a new connection, then both back. */
module Pool {
  type Task = nat
  type Conn = nat

  /** Where a task is inside `acquire` or with its guard. A guard's connection goes back before its permit does. */
  datatype Phase = Waiting | Admitted | Connecting | Using(conn: Conn) | Leaving

  /** Permits left, idle connections in order, every task that has asked, and how many connections were ever opened. */
  datatype State = State(permits: nat, idle: seq<Conn>, tasks: map<Task, Phase>, made: nat)

  /** One atomic step of one task. `Fail` is an error, a timeout or a cancelled connect. */
  datatype Step =
    | Ask(t: Task) | GiveUp(t: Task) | Admit(t: Task) | Look(t: Task) | Connect(t: Task) | Fail(t: Task)
    | Return(t: Task) | Release(t: Task)

  predicate At(s: State, t: Task, p: Phase) { t in s.tasks && s.tasks[t] == p }

  predicate Enabled(s: State, step: Step) {
    match step
    case Ask(t) => t !in s.tasks
    case GiveUp(t) => At(s, t, Waiting)
    case Admit(t) => At(s, t, Waiting) && s.permits > 0
    case Look(t) => At(s, t, Admitted)
    case Connect(t) => At(s, t, Connecting)
    case Fail(t) => At(s, t, Connecting)
    case Return(t) => t in s.tasks && s.tasks[t].Using?
    case Release(t) => At(s, t, Leaving)
  }

  function Move(s: State, t: Task, p: Phase): State { s.(tasks := s.tasks[t := p]) }

  function Leave(s: State, t: Task): State { s.(tasks := s.tasks - {t}) }

  function Next(s: State, step: Step): State
    requires Enabled(s, step)
  {
    match step
    case Ask(t) => Move(s, t, Waiting)
    case GiveUp(t) => Leave(s, t)
    case Admit(t) => Move(s, t, Admitted).(permits := s.permits - 1)
    case Look(t) =>
      if s.idle == [] then Move(s, t, Connecting) else Move(s, t, Using(s.idle[0])).(idle := s.idle[1..])
    case Connect(t) => Move(s, t, Using(s.made)).(made := s.made + 1)
    case Fail(t) => Leave(s, t).(permits := s.permits + 1)
    case Return(t) => Move(s, t, Leaving).(idle := s.idle + [s.tasks[t].conn])
    case Release(t) => Leave(s, t).(permits := s.permits + 1)
  }

  /** The pool with its semaphore. Each method is what a task does between two suspension points. */
  class S7Pool {
    var permits: nat
    var idle: seq<Conn>
    var made: nat
    var tasks: map<Task, Phase>

    ghost function View(): State
      reads this
    {
      State(permits, idle, tasks, made)
    }

    constructor (maxSize: nat)
      ensures View() == Start(maxSize)
    {
      permits, idle, made, tasks := maxSize, [], 0, map[];
    }

    method Acquire(t: Task)
      requires t !in tasks
      modifies this
      ensures View() == Next(old(View()), Ask(t))
    {
      tasks := tasks[t := Waiting];
    }

    method TakePermit(t: Task) returns (ok: bool)
      requires At(View(), t, Waiting)
      modifies this
      ensures ok == (old(permits) > 0)
      ensures View() == if ok then Next(old(View()), Admit(t)) else old(View())
    {
      ok := permits > 0;
      if ok {
        permits := permits - 1;
        tasks := tasks[t := Admitted];
      }
    }

    method TakeIdle(t: Task) returns (found: bool)
      requires At(View(), t, Admitted)
      modifies this
      ensures found == (old(idle) != [])
      ensures View() == Next(old(View()), Look(t))
    {
      found := idle != [];
      if found {
        tasks := tasks[t := Using(idle[0])];
        idle := idle[1..];
      } else {
        tasks := tasks[t := Connecting];
      }
    }

    /** The connect attempt ends. */
    method Connected(t: Task, ok: bool)
      requires At(View(), t, Connecting)
      modifies this
      ensures View() == Next(old(View()), if ok then Connect(t) else Fail(t))
    {
      if ok {
        tasks := tasks[t := Using(made)];
        made := made + 1;
      } else {
        tasks := tasks - {t};
        permits := permits + 1;
      }
    }

    /** The first half of dropping a guard. */
    method Drop(t: Task)
      requires t in tasks && tasks[t].Using?
      modifies this
      ensures View() == Next(old(View()), Return(t))
    {
      idle := idle + [tasks[t].conn];
      tasks := tasks[t := Leaving];
    }

    /** The second half: the permit field goes after the drop body has run. */
    method DropPermit(t: Task)
      requires At(View(), t, Leaving)
      modifies this
      ensures View() == Next(old(View()), Release(t))
    {
      tasks := tasks - {t};
      permits := permits + 1;
    }
  }

  // -- Runs -----------------------------------------------------------------------------------

  function Start(maxSize: nat): State { State(maxSize, [], map[], 0) }

  predicate Runs(s: State, steps: seq<Step>)
    decreases |steps|
  {
    steps == [] || (Enabled(s, steps[0]) && Runs(Next(s, steps[0]), steps[1..]))
  }

  function After(s: State, steps: seq<Step>): State
    requires Runs(s, steps)
    decreases |steps|
  {
    if steps == [] then s else After(Next(s, steps[0]), steps[1..])
  }

  /** The tasks that hold a permit. */
  function Holders(s: State): set<Task> { set t | t in s.tasks && s.tasks[t] != Waiting }

  /** The tasks that hold a connection or are opening one. */
  function Busy(s: State): set<Task> { set t | t in s.tasks && (s.tasks[t].Using? || s.tasks[t].Connecting?) }

  function Users(s: State): set<Task> { set t | t in s.tasks && s.tasks[t].Using? }

  /** Connections that exist or are being opened. */
  function Live(s: State): nat { |s.idle| + |Busy(s)| }

  /** The most permits ever held at once in a run. */
  function Peak(s: State, steps: seq<Step>): nat
    requires Runs(s, steps)
    decreases |steps|
  {
    var here := |Holders(s)|;
    if steps == [] then here
    else
      var later := Peak(Next(s, steps[0]), steps[1..]);
      if here > later then here else later
  }

  /** Every permit is free or held by one task. */
  predicate Permits(s: State, maxSize: nat) { s.permits + |Holders(s)| == maxSize }

  predicate Distinct(idle: seq<Conn>) { forall i, j :: 0 <= i < j < |idle| ==> idle[i] != idle[j] }

  ghost predicate Lent(s: State, c: Conn) { exists t :: At(s, t, Using(c)) }

  /** Every connection ever opened is in exactly one place: once among the idle ones or with one user. */
  ghost predicate Owned(s: State) {
    && Distinct(s.idle)
    && (forall t, u :: t in s.tasks && u in s.tasks && s.tasks[t].Using? && s.tasks[t] == s.tasks[u] ==> t == u)
    && (forall t :: t in s.tasks && s.tasks[t].Using? ==> s.tasks[t].conn !in s.idle && s.tasks[t].conn < s.made)
    && (forall c :: c in s.idle ==> c < s.made)
    && (forall c :: 0 <= c < s.made ==> c in s.idle || Lent(s, c))
    && s.made == |s.idle| + |Users(s)|
  }

  // -- Each step ------------------------------------------------------------------------------

  lemma HoldersStep(s: State, step: Step)
    requires Enabled(s, step)
    ensures Holders(Next(s, step)) == match step
                                      case Admit(t) => Holders(s) + {t}
                                      case Fail(t) => Holders(s) - {t}
                                      case Release(t) => Holders(s) - {t}
                                      case _ => Holders(s)
  {
  }

  lemma BusyStep(s: State, step: Step)
    requires Enabled(s, step)
    ensures Busy(Next(s, step)) == match step
                                   case Look(t) => Busy(s) + {t}
                                   case Fail(t) => Busy(s) - {t}
                                   case Return(t) => Busy(s) - {t}
                                   case _ => Busy(s)
  {
  }

  lemma UsersStep(s: State, step: Step)
    requires Enabled(s, step)
    ensures Users(Next(s, step)) == match step
                                    case Look(t) => if s.idle == [] then Users(s) else Users(s) + {t}
                                    case Connect(t) => Users(s) + {t}
                                    case Return(t) => Users(s) - {t}
                                    case _ => Users(s)
  {
  }

  lemma PermitsKept(s: State, step: Step, maxSize: nat)
    requires Enabled(s, step) && Permits(s, maxSize)
    ensures Permits(Next(s, step), maxSize)
  {
    HoldersStep(s, step);
  }

  lemma NoneLost(s: State, step: Step, c: Conn)
    requires Enabled(s, step) && (c in s.idle || Lent(s, c) || (step.Connect? && c == s.made))
    ensures c in Next(s, step).idle || Lent(Next(s, step), c)
  {
    var next := Next(s, step);
    if step.Connect? && c == s.made {
      assert At(next, step.t, Using(c));
    } else if c in s.idle {
      if step.Look? && c == s.idle[0] {
        assert At(next, step.t, Using(c));
      }
    } else {
      var t :| At(s, t, Using(c));
      assert At(next, t, Using(c)) || step == Return(t);
    }
  }

  lemma OwnedKept(s: State, step: Step)
    requires Enabled(s, step) && Owned(s)
    ensures Owned(Next(s, step))
  {
    UsersStep(s, step);
    var next := Next(s, step);
    forall c | 0 <= c < next.made ensures c in next.idle || Lent(next, c) {
      NoneLost(s, step, c);
    }
    forall c | c in next.idle ensures c < next.made {
      assert c in s.idle || (step.Return? && c == s.tasks[step.t].conn);
    }
    forall u | u in next.tasks && next.tasks[u].Using?
      ensures next.tasks[u].conn !in next.idle && next.tasks[u].conn < next.made
    {
      if u in s.tasks && s.tasks[u] == next.tasks[u] {
        assert s.tasks[u].conn !in s.idle;
      } else if step.Look? {
        assert next.tasks[u].conn == s.idle[0] && s.idle[0] in s.idle;
      } else {
        assert next.tasks[u].conn == s.made;
      }
    }
  }

  /** A connection is opened only when none is idle, by a task with a permit. */
  lemma LiveStep(s: State, step: Step)
    requires Enabled(s, step)
    ensures Live(Next(s, step)) <= Live(s) || Live(Next(s, step)) <= |Holders(s)|
  {
    BusyStep(s, step);
    BusyHold(s);
    if step.Look? {
      BusyHold(Next(s, step));
      HoldersStep(s, step);
    }
  }

  lemma BusyHold(s: State)
    ensures Busy(s) <= Holders(s) && |Busy(s)| <= |Holders(s)|
  {
    Subset(Busy(s), Holders(s));
  }

  lemma Subset(a: set<Task>, b: set<Task>)
    requires a <= b
    ensures |a| <= |b|
  {
    assert b == a + (b - a);
  }

  // -- Every run ------------------------------------------------------------------------------

  lemma {:induction false} RunKeeps(s: State, steps: seq<Step>, maxSize: nat)
    requires Runs(s, steps) && Permits(s, maxSize) && Owned(s)
    ensures Permits(After(s, steps), maxSize) && Owned(After(s, steps))
    ensures Live(After(s, steps)) <= (if Live(s) > Peak(s, steps) then Live(s) else Peak(s, steps))
    ensures Peak(s, steps) <= maxSize
    decreases |steps|
  {
    if steps != [] {
      PermitsKept(s, steps[0], maxSize);
      OwnedKept(s, steps[0]);
      LiveStep(s, steps[0]);
      RunKeeps(Next(s, steps[0]), steps[1..], maxSize);
    }
  }

  /** In every run of any number of tasks no permit is lost, no connection is lost or lent twice, and there are never
      more connections than permits were ever held at once, hence never more than the maximum size. */
  lemma PoolIsSafe(maxSize: nat, steps: seq<Step>)
    requires Runs(Start(maxSize), steps)
    ensures var s := After(Start(maxSize), steps);
            && Permits(s, maxSize) && Owned(s)
            && Live(s) <= Peak(Start(maxSize), steps) <= maxSize
            && (s.tasks == map[] ==> s.permits == maxSize && |s.idle| == s.made)
  {
    var start := Start(maxSize);
    assert Holders(start) == {} && Users(start) == {} && Busy(start) == {};
    RunKeeps(start, steps, maxSize);
    var s := After(start, steps);
    assert s.tasks == map[] ==> Holders(s) == {} && Users(s) == {};
  }

  /** While a task waits, it or a task that holds a permit can take a step; only an empty pool starves. */
  lemma SomeoneMoves(maxSize: nat, steps: seq<Step>, t: Task) returns (step: Step)
    requires maxSize > 0 && Runs(Start(maxSize), steps) && At(After(Start(maxSize), steps), t, Waiting)
    ensures var s := After(Start(maxSize), steps);
            Enabled(s, step) && (step == Admit(t) || (step.t in Holders(s) && !step.Ask? && !step.GiveUp?))
  {
    PoolIsSafe(maxSize, steps);
    var s := After(Start(maxSize), steps);
    if s.permits > 0 {
      step := Admit(t);
    } else {
      assert Holders(s) != {};
      var u :| u in Holders(s);
      match s.tasks[u] {
        case Admitted => step := Look(u);
        case Connecting => step := Connect(u);
        case Using(_) => step := Return(u);
        case Leaving => step := Release(u);
      }
    }
  }

  /** The bound is met: `n` tasks that overlap open `n` connections. */
  function Overlap(n: nat): seq<Step> {
    if n == 0 then [] else Overlap(n - 1) + [Ask(n - 1), Admit(n - 1), Look(n - 1), Connect(n - 1)]
  }

  function AllLent(maxSize: nat, n: nat): State
    requires n <= maxSize
  {
    State(maxSize - n, [], map t: Task | 0 <= t < n :: Using(t), n)
  }

  lemma {:induction false} BoundIsMet(maxSize: nat, n: nat)
    requires n <= maxSize
    ensures Runs(Start(maxSize), Overlap(n)) && After(Start(maxSize), Overlap(n)) == AllLent(maxSize, n)
  {
    var start := Start(maxSize);
    if n == 0 {
      assert AllLent(maxSize, 0).tasks == map[];
    } else {
      BoundIsMet(maxSize, n - 1);
      var last := [Ask(n - 1), Admit(n - 1), Look(n - 1), Connect(n - 1)];
      OneMore(maxSize, n);
      RunAppend(start, Overlap(n - 1), last);
    }
  }

  lemma OneMore(maxSize: nat, n: nat)
    requires 0 < n <= maxSize
    ensures var last := [Ask(n - 1), Admit(n - 1), Look(n - 1), Connect(n - 1)];
            Runs(AllLent(maxSize, n - 1), last) && After(AllLent(maxSize, n - 1), last) == AllLent(maxSize, n)
  {
    var s0 := AllLent(maxSize, n - 1);
    var s1 := Next(s0, Ask(n - 1));
    var s2 := Next(s1, Admit(n - 1));
    var s3 := Next(s2, Look(n - 1));
    var s4 := Next(s3, Connect(n - 1));
    assert s4 == AllLent(maxSize, n);
    FourSteps(s0, Ask(n - 1), Admit(n - 1), Look(n - 1), Connect(n - 1));
  }

  lemma FourSteps(s: State, a: Step, b: Step, c: Step, d: Step)
    requires Enabled(s, a) && Enabled(Next(s, a), b) && Enabled(Next(Next(s, a), b), c)
    requires Enabled(Next(Next(Next(s, a), b), c), d)
    ensures Runs(s, [a, b, c, d]) && After(s, [a, b, c, d]) == Next(Next(Next(Next(s, a), b), c), d)
  {
    hide Next, Enabled;
    var s3 := Next(Next(Next(s, a), b), c);
    OneStep(s3, d, []);
    OneStep(Next(Next(s, a), b), c, [d]);
    OneStep(Next(s, a), b, [c, d]);
    OneStep(s, a, [b, c, d]);
  }

  lemma OneStep(s: State, step: Step, rest: seq<Step>)
    requires Enabled(s, step) && Runs(Next(s, step), rest)
    ensures Runs(s, [step] + rest) && After(s, [step] + rest) == After(Next(s, step), rest)
  {
    assert ([step] + rest)[1..] == rest;
  }

  lemma {:induction false} RunAppend(s: State, a: seq<Step>, b: seq<Step>)
    requires Runs(s, a) && Runs(After(s, a), b)
    ensures Runs(s, a + b) && After(s, a + b) == After(After(s, a), b)
    decreases |a|
  {
    hide Next, Enabled;
    if a == [] {
      assert a + b == b;
    } else {
      RunAppend(Next(s, a[0]), a[1..], b);
      assert (a + b)[1..] == a[1..] + b;
    }
  }

  // -- First back, first out ----------------------------------------------------------------------

  /** The connections given back in a run, in order. */
  function Returned(s: State, steps: seq<Step>): seq<Conn>
    requires Runs(s, steps)
    decreases |steps|
  {
    if steps == [] then []
    else
      (if steps[0].Return? then [s.tasks[steps[0].t].conn] else []) + Returned(Next(s, steps[0]), steps[1..])
  }

  /** The connections lent again in a run, in order: those of the tasks that found one idle. */
  function Relent(s: State, steps: seq<Step>): seq<Conn>
    requires Runs(s, steps)
    decreases |steps|
  {
    if steps == [] then []
    else
      var next := Next(s, steps[0]);
      (if steps[0].Look? && next.tasks[steps[0].t].Using? then [next.tasks[steps[0].t].conn] else [])
      + Relent(next, steps[1..])
  }

  lemma {:induction false} QueueKeeps(s: State, steps: seq<Step>)
    requires Runs(s, steps)
    ensures s.idle + Returned(s, steps) == Relent(s, steps) + After(s, steps).idle
    decreases |steps|
  {
    if steps != [] {
      var next := Next(s, steps[0]);
      QueueKeeps(next, steps[1..]);
      var back := if steps[0].Return? then [s.tasks[steps[0].t].conn] else [];
      var out := if steps[0].Look? && next.tasks[steps[0].t].Using? then [next.tasks[steps[0].t].conn] else [];
      assert s.idle + back == out + next.idle;
      Regroup(s.idle, back, Returned(next, steps[1..]));
      Regroup(out, next.idle, Returned(next, steps[1..]));
      Regroup(out, Relent(next, steps[1..]), After(s, steps).idle);
    }
  }

  lemma Regroup(a: seq<Conn>, b: seq<Conn>, c: seq<Conn>)
    ensures a + (b + c) == (a + b) + c
  {
  }

  /** Connections are lent again in the order in which they came back. */
  lemma FirstBackFirstOut(maxSize: nat, steps: seq<Step>)
    requires Runs(Start(maxSize), steps)
    ensures Returned(Start(maxSize), steps) == Relent(Start(maxSize), steps) + After(Start(maxSize), steps).idle
  {
    hide Returned, Relent, After, Runs;
    QueueKeeps(Start(maxSize), steps);
    assert Start(maxSize).idle + Returned(Start(maxSize), steps) == Returned(Start(maxSize), steps);
  }
}
