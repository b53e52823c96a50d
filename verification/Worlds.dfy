/** The outside world as the teardown controller's code meets it: an API client and
    Talos clients behind which everyone else keeps acting.  The history of all events
    is kept, and is always a run of the system. */
module Worlds {
  import opened Common
  import opened Machines
  import opened Protocol
  import opened System

  /** A connection to one Talos node. */
  class Client {
    const node: string
    var closed: bool

    constructor (node: string)
      ensures this.node == node && !closed
    {
      this.node := node;
      closed := false;
    }
  }

  /** A call that goes to one Talos node. */
  predicate OverConnection(request: Request, node: string) {
    match request
    case ServiceInfo(n) => n == node
    case MemberList(n) => n == node
    case ForfeitLeadership(n) => n == node
    case LeaveCluster(n) => n == node
    case RemoveMember(n, _) => n == node
    case ResetGeneric(n) => n == node
    case _ => false
  }

  /** The node of `name` is in the middle of a reconcile, at this stage with this copy,
      or back in the queue with the delay of this outcome. */
  predicate Stands(s: State, name: string, progress: Progress) {
    && name in s.nodes
    && var node := s.nodes[name];
       match progress
       case Proceed(stage, snap) =>
         node.proc.Running? && node.proc.stage == stage && node.proc.snap == snap
       case Stop(Done) => node.proc.Idle? && node.due.None?
       case Stop(Requeue) => node.proc.Idle? && node.due == Some(s.now + HOOK_WAIT)
       case Stop(Error) =>
         node.proc.Idle? && node.due.Some? && s.now + 5 * SECOND <= node.due.value <= s.now + 30 * SECOND
  }

  /** A reply takes the reconcile where the protocol continues. */
  lemma StepStands(cfg: Config, s: State, name: string, reply: Reply, applied: bool)
    requires Enabled(cfg, s, Step(name, reply, applied))
    ensures Stands(Apply(cfg, s, Step(name, reply, applied)), name, Resume(cfg, s.nodes[name].proc, reply, s.now))
  {
    BackoffRange(s.nodes[name].failures);
  }

  class World {
    const cfg: Config
    ghost const start: State
    var s: State
    ghost var history: seq<Event>
    /** The history when the reconcile in question began. */
    ghost var mark: seq<Event>
    ghost var open: set<Client>

    constructor (cfg: Config, s: State)
      ensures Valid() && this.cfg == cfg && this.s == s && start == s && history == [] && open == {}
    {
      this.cfg, this.s, this.start, this.history, this.mark, this.open := cfg, s, s, [], [], {};
    }

    /** The state is where the history leads, and the history only grows. */
    ghost predicate Valid()
      reads this`s, this`history, this`mark
    {
      forall ask {:trigger OnDemand(ask)} :: OnDemand(ask) ==>
        IsRun(cfg, start, history) && After(cfg, start, history) == s && mark <= history
    }

    lemma ValidMeans()
      requires Valid()
      ensures IsRun(cfg, start, history) && After(cfg, start, history) == s && mark <= history
    {
      assert OnDemand(0);
    }

    /** The reconcile of `name` stands exactly where the protocol says. */
    ghost predicate At(name: string, progress: Progress)
      reads this`s
    {
      forall ask {:trigger OnDemand(ask)} :: OnDemand(ask) ==> Stands(s, name, progress)
    }

    lemma AtMeans(name: string, progress: Progress)
      ensures At(name, progress) <==> Stands(s, name, progress)
    {
      assert OnDemand(0);
    }

    /** Someone else's event, seen from the reconcile of `name` that is running. */
    predicate Foreign(e: Event, name: string) {
      match e
      case Begin(other) => other != name
      case Step(other, _, _) => other != name
      case Crash => false
      case Drop(other) => other != name
      case _ => true
    }

    /** Anyone else does anything, any number of times. */
    method Interfere(name: string)
      requires Valid() && name in s.nodes
      modifies this`s, this`history
      ensures Valid()
      ensures name in s.nodes && s.nodes[name].(machine := old(s.nodes[name].machine)) == old(s.nodes[name])
    {
      var n: int := *;
      while n > 0
        invariant Valid()
        invariant name in s.nodes && s.nodes[name].(machine := old(s.nodes[name].machine)) == old(s.nodes[name])
      {
        var e: Event := *;
        if Enabled(cfg, s, e) && Foreign(e, name) {
          Happen(e);
        }
        n := n - 1;
      }
    }

    method Happen(e: Event)
      requires Valid() && Enabled(cfg, s, e)
      modifies this`s, this`history
      ensures Valid() && s == Apply(cfg, old(s), e) && history == old(history) + [e]
    {
      ValidMeans();
      RunAppend(cfg, start, history, e);
      s := Apply(cfg, s, e);
      history := history + [e];
    }

    /** A worker picks the item up; if no such Machine is stored any more, its read finds
        nothing. */
    method Begin(name: string) returns (found: bool)
      requires Valid() && (name in s.nodes ==> s.nodes[name].proc.Idle?)
      modifies this`s, this`history, this`mark
      ensures Valid() && found == (name in old(s.nodes)) && mark == history
      ensures if found then history == old(history) + [System.Begin(name)] && name in s.nodes && s.nodes[name].proc == Reading
              else history == old(history) && s == old(s)
    {
      found := name in s.nodes;
      if found { Happen(System.Begin(name)); }
      ValidMeans();
      mark := history;
    }

    /** One call of the reconcile of `name`: it must be the call the protocol has pending,
        and leaves the reconcile where the protocol continues from the reply.  The time
        read after the call is the time of the reply. */
    method Call(name: string, request: Request) returns (reply: Reply)
      requires Valid() && name in s.nodes && !s.nodes[name].proc.Idle?
      requires PendingOf(cfg, s.nodes[name].proc) == request
      modifies this`s, this`history
      ensures Valid()
      ensures history != [] && history[|history| - 1].Step? && history[|history| - 1].name == name
      ensures history[|history| - 1].reply == reply
      ensures At(name, Resume(cfg, old(s.nodes[name].proc), reply, s.now))
    {
      Interfere(name);
      reply := *;
      var applied: bool := *;
      if !Answers(s, name, request, reply, applied) {
        reply := Failed;
      }
      StepStands(cfg, s, name, reply, applied);
      Happen(Step(name, reply, applied));
      AtMeans(name, Resume(cfg, old(s.nodes[name].proc), reply, s.now));
    }

    /** The same, said of a running reconcile's stage. */
    method Ask(name: string, ghost stage: Stage, ghost snap: Machine, request: Request) returns (reply: Reply)
      requires Valid() && At(name, Proceed(stage, snap)) && Pending(cfg, stage, snap) == request
      modifies this`s, this`history
      ensures Valid()
      ensures At(name, Advance(cfg, stage, snap, reply, s.now))
    {
      AtMeans(name, Proceed(stage, snap));
      reply := Call(name, request);
    }

    /** Connects to a node; a connection that succeeds has to be closed. */
    method Connect(name: string, ghost stage: Stage, ghost snap: Machine, node: string)
      returns (client: Client?, ghost reply: Reply)
      requires Valid() && At(name, Proceed(stage, snap)) && Pending(cfg, stage, snap) == Dial(node)
      modifies this`s, this`history, this`open
      ensures Valid()
      ensures client != null <==> reply.Ok?
      ensures client == null ==> open == old(open)
      ensures client != null ==> fresh(client) && client.node == node && !client.closed && open == old(open) + {client}
      ensures At(name, Advance(cfg, stage, snap, reply, s.now))
    {
      var answer := Ask(name, stage, snap, Dial(node));
      client, reply := null, answer;
      if answer.Ok? {
        client := new Client(node);
        open := open + {client};
      }
    }

    /** A Talos call over an open connection. */
    method Talos(name: string, ghost stage: Stage, ghost snap: Machine, client: Client, request: Request) returns (reply: Reply)
      requires client in open && !client.closed
      requires OverConnection(request, client.node)
      requires Valid() && At(name, Proceed(stage, snap)) && Pending(cfg, stage, snap) == request
      modifies this`s, this`history
      ensures Valid()
      ensures At(name, Advance(cfg, stage, snap, reply, s.now))
    {
      reply := Ask(name, stage, snap, request);
    }

    /** Closes a connection; closing twice is not possible. */
    method Close(client: Client)
      requires client in open && !client.closed
      modifies this`open, client
      ensures open == old(open) - {client} && client.closed
    {
      client.closed := true;
      open := open - {client};
    }
  }
}
