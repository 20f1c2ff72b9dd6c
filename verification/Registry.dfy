/** The live registry of server/store.go: three connection slots per host. */
module Registry {
  import opened Optional

  type ConnId = nat

  datatype Role = Interactive | Elevated | Console

  datatype Reg = Reg(agent: string, console: bool, elevated: bool, canStream: bool, canExec: bool) {
    /** The switch in register: console wins over elevated. */
    function Role(): Role {
      if console then Console else if elevated then Elevated else Interactive
    }
  }

  datatype Host = Host(
    reg: Reg, lastSeen: int, online: bool, metrics: Option<nat>,
    conn: Option<ConnId>, elevConn: Option<ConnId>, consConn: Option<ConnId>)
  {
    predicate AnyConn() {
      conn.Some? || elevConn.Some? || consConn.Some?
    }

    function Slot(role: Role): Option<ConnId> {
      match role
      case Interactive => conn
      case Elevated => elevConn
      case Console => consConn
    }

    function ScreenConn(): Option<ConnId> {
      if consConn.Some? then consConn else conn
    }

    function ExecConn(): Option<ConnId> {
      if elevConn.Some? then elevConn else conn
    }

    predicate CanStream() {
      ScreenConn().Some? && reg.canStream
    }

    predicate CanExec() {
      elevConn.Some? || (online && reg.canExec)
    }
  }

  type Hosts = map<string, Host>

  const NO_HOST := Host(Reg("", false, false, false, false), 0, false, None, None, None, None)

  function SlotOf(hosts: Hosts, agent: string, role: Role): Option<ConnId> {
    if agent in hosts then hosts[agent].Slot(role) else None
  }

  function WithSlot(h: Host, role: Role, c: Option<ConnId>): Host {
    match role
    case Interactive => h.(conn := c)
    case Elevated => h.(elevConn := c)
    case Console => h.(consConn := c)
  }

  // ---------------------------------------------------------------- the operations on values

  function AfterRegister(hosts: Hosts, reg: Reg, c: ConnId, now: int): Hosts {
    var h := if reg.agent in hosts then hosts[reg.agent] else NO_HOST;
    var owns := reg.Role().Interactive? || h.conn.None?;
    var seated := WithSlot(h, reg.Role(), Some(c));
    hosts[reg.agent := seated.(lastSeen := now, online := true, reg := if owns then reg else h.reg)]
  }

  function Without(slot: Option<ConnId>, c: ConnId): Option<ConnId> {
    if slot == Some(c) then None else slot
  }

  function AfterDisconnect(hosts: Hosts, agent: string, c: ConnId): Hosts {
    if agent !in hosts then hosts
    else
      var h := hosts[agent];
      var left := h.(conn := Without(h.conn, c), elevConn := Without(h.elevConn, c), consConn := Without(h.consConn, c));
      hosts[agent := left.(online := left.AnyConn())]
  }

  predicate Removable(hosts: Hosts, agent: string) {
    agent in hosts && !hosts[agent].AnyConn()
  }

  function AfterRemove(hosts: Hosts, agent: string): Hosts {
    if Removable(hosts, agent) then hosts - {agent} else hosts
  }

  function AfterMetrics(hosts: Hosts, agent: string, m: nat, now: int): Hosts {
    if agent in hosts then hosts[agent := hosts[agent].(metrics := Some(m), lastSeen := now)] else hosts
  }

  // ---------------------------------------------------------------- the store

  class Store {
    var hosts: Hosts

    constructor ()
      ensures hosts == map[]
    {
      hosts := map[];
    }

    method Register(reg: Reg, c: ConnId, now: int) returns (old_: Option<ConnId>)
      modifies this
      ensures hosts == AfterRegister(old(hosts), reg, c, now)
      ensures old_ == SlotOf(old(hosts), reg.agent, reg.Role())
    {
      var h := if reg.agent in hosts then hosts[reg.agent] else NO_HOST;
      h := h.(lastSeen := now);
      if reg.console {
        old_ := h.consConn;
        h := h.(consConn := Some(c));
        if h.conn.None? {
          h := h.(reg := reg);
        }
      } else if reg.elevated {
        old_ := h.elevConn;
        h := h.(elevConn := Some(c));
        if h.conn.None? {
          h := h.(reg := reg);
        }
      } else {
        old_ := h.conn;
        h := h.(conn := Some(c));
        h := h.(reg := reg);
      }
      h := h.(online := h.AnyConn());
      hosts := hosts[reg.agent := h];
    }

    method Disconnect(agent: string, c: ConnId)
      modifies this
      ensures hosts == AfterDisconnect(old(hosts), agent, c)
    {
      if agent !in hosts {
        return;
      }
      var h := hosts[agent];
      if h.conn == Some(c) {
        h := h.(conn := None);
      }
      if h.elevConn == Some(c) {
        h := h.(elevConn := None);
      }
      if h.consConn == Some(c) {
        h := h.(consConn := None);
      }
      h := h.(online := h.AnyConn());
      hosts := hosts[agent := h];
    }

    method UpdateMetrics(agent: string, m: nat, now: int)
      modifies this
      ensures hosts == AfterMetrics(old(hosts), agent, m, now)
    {
      if agent in hosts {
        hosts := hosts[agent := hosts[agent].(metrics := Some(m), lastSeen := now)];
      }
    }

    method Remove(agent: string) returns (removed: bool, online: bool)
      modifies this
      ensures hosts == AfterRemove(old(hosts), agent)
      ensures removed == Removable(old(hosts), agent)
      ensures online == (agent in old(hosts) && old(hosts)[agent].AnyConn())
    {
      if agent !in hosts {
        return false, false;
      }
      if hosts[agent].AnyConn() {
        return false, true;
      }
      hosts := hosts - {agent};
      return true, false;
    }
  }

  /** The control channel of one connection, server/agentconn.go: a bounded queue that closes once. */
  class AgentConn {
    const ROOM: nat := 16
    var queue: seq<string>
    var open: bool
    ghost var closings: nat  // how often the body of closeOnce ran

    ghost predicate Valid()
      reads this
    {
      |queue| <= ROOM && closings == if open then 0 else 1
    }

    constructor ()
      ensures Valid() && open && queue == []
    {
      queue, open, closings := [], true, 0;
    }

    /** With room and a closed channel both arms of the select are ready: `pick` is the runtime's choice. */
    method SendJSON(msg: string, pick: bool)
      requires Valid()
      modifies this
      ensures Valid()
      ensures open == (old(open) && |old(queue)| < ROOM)
      ensures queue == if |old(queue)| < ROOM && (old(open) || pick) then old(queue) + [msg] else old(queue)
    {
      if |queue| < ROOM && (open || pick) {
        queue := queue + [msg];
      } else if open {
        Close();
      }
    }

    method Close()
      requires Valid()
      modifies `open, `closings
      ensures Valid() && !open
    {
      if open {
        open := false;
        closings := closings + 1;
      }
    }
  }

  // ---------------------------------------------------------------- the protocol of the handlers

  /** Where the handler of a connection is: handleAgentControl and the end of readLoop. */
  datatype Phase = Opening | ClosingOld(displaced: ConnId) | Reading | Ending | Finished

  datatype Conn = Conn(reg: Reg, phase: Phase, open: bool)

  /** `displaced` remembers which connections another one took the slot of. */
  datatype World = World(hosts: Hosts, conns: map<ConnId, Conn>, displaced: set<ConnId>)

  datatype Action =
    | Connect(c: ConnId, reg: Reg)
    | Register(c: ConnId, now: int)
    | CloseOld(c: ConnId)
    | Close(c: ConnId)
    | ReadFails(c: ConnId)
    | Detach(c: ConnId)
    | Report(c: ConnId, m: nat, now: int)
    | Remove(agent: string)

  const NOTHING := World(map[], map[], {})

  predicate Enabled(w: World, a: Action) {
    match a
    case Connect(c, _) => c !in w.conns
    case Register(c, _) => c in w.conns && w.conns[c].phase == Opening
    case CloseOld(c) => c in w.conns && w.conns[c].phase.ClosingOld? && w.conns[c].phase.displaced in w.conns
    case Close(c) => c in w.conns
    case ReadFails(c) => c in w.conns && w.conns[c].phase == Reading
    case Detach(c) => c in w.conns && w.conns[c].phase == Ending
    case Report(c, _, _) => c in w.conns && w.conns[c].phase == Reading
    case Remove(_) => true
  }

  function Shut(conns: map<ConnId, Conn>, c: ConnId): map<ConnId, Conn>
    requires c in conns
  {
    conns[c := conns[c].(open := false)]
  }

  function Moved(conns: map<ConnId, Conn>, c: ConnId, phase: Phase): map<ConnId, Conn>
    requires c in conns
  {
    conns[c := conns[c].(phase := phase)]
  }

  function Act(w: World, a: Action): World
    requires Enabled(w, a)
  {
    match a
    case Connect(c, reg) =>
      w.(conns := w.conns[c := Conn(reg, Opening, true)])
    case Register(c, now) =>
      var reg := w.conns[c].reg;
      var old_ := SlotOf(w.hosts, reg.agent, reg.Role());
      World(AfterRegister(w.hosts, reg, c, now),
            Moved(w.conns, c, if old_.Some? then ClosingOld(old_.value) else Reading),
            w.displaced + if old_.Some? then {old_.value} else {})
    case CloseOld(c) =>
      w.(conns := Moved(Shut(w.conns, w.conns[c].phase.displaced), c, Reading))
    case Close(c) =>
      w.(conns := Shut(w.conns, c))
    case ReadFails(c) =>
      w.(conns := Moved(Shut(w.conns, c), c, Ending))
    case Detach(c) =>
      w.(hosts := AfterDisconnect(w.hosts, w.conns[c].reg.agent, c), conns := Moved(w.conns, c, Finished))
    case Report(c, m, now) =>
      w.(hosts := AfterMetrics(w.hosts, w.conns[c].reg.agent, m, now))
    case Remove(agent) =>
      w.(hosts := AfterRemove(w.hosts, agent))
  }

  /** Any interleaving of handler steps: one that is not enabled does not happen. */
  function Play(actions: seq<Action>): World {
    if actions == [] then NOTHING
    else
      var w, a := Play(actions[..|actions| - 1]), actions[|actions| - 1];
      if Enabled(w, a) then Act(w, a) else w
  }

  // ---------------------------------------------------------------- the invariant

  predicate Attached(conn: Conn) {
    conn.phase.ClosingOld? || conn.phase.Reading? || conn.phase.Ending?
  }

  predicate Seated(w: World, c: ConnId)
    requires c in w.conns
  {
    SlotOf(w.hosts, w.conns[c].reg.agent, w.conns[c].reg.Role()) == Some(c)
  }

  ghost predicate ClosePending(w: World, c: ConnId) {
    exists d :: d in w.conns && w.conns[d].phase == ClosingOld(c)
  }

  predicate HostSound(w: World, agent: string)
    requires agent in w.hosts
  {
    var h := w.hosts[agent];
    && h.online == h.AnyConn()
    && h.reg.agent == agent
    && (h.conn.Some? ==> h.conn.value in w.conns && h.reg == w.conns[h.conn.value].reg)
  }

  /** What sits in a slot belongs there: right host, right role, handler still running, not displaced. */
  predicate SlotSound(w: World, agent: string, role: Role) {
    var slot := SlotOf(w.hosts, agent, role);
    slot.Some? ==>
      var c := slot.value;
      && c in w.conns && c !in w.displaced
      && w.conns[c].reg.agent == agent && w.conns[c].reg.Role() == role && Attached(w.conns[c])
  }

  ghost predicate ConnSound(w: World, c: ConnId)
    requires c in w.conns
  {
    var conn := w.conns[c];
    && (Attached(conn) ==> (Seated(w, c) <==> c !in w.displaced))
    && (Attached(conn) && c in w.displaced && conn.open ==> ClosePending(w, c))
    && (conn.phase.Opening? ==> c !in w.displaced)
    && (conn.phase.ClosingOld? ==> conn.phase.displaced in w.conns && conn.phase.displaced in w.displaced)
  }

  ghost predicate Inv(w: World) {
    && w.displaced <= w.conns.Keys
    && (forall agent :: agent in w.hosts ==> HostSound(w, agent))
    && (forall agent, role :: SlotSound(w, agent, role))
    && (forall c :: c in w.conns ==> ConnSound(w, c))
  }

  /** A pending close survives any step that keeps the pending handler where it is. */
  lemma PendingKept(w: World, w': World, c: ConnId)
    requires ClosePending(w, c)
    requires forall d :: d in w.conns && w.conns[d].phase == ClosingOld(c) ==>
               d in w'.conns && w'.conns[d].phase == ClosingOld(c)
    ensures ClosePending(w', c)
  {
  }

  lemma ConnectKeepsInv(w: World, c: ConnId, reg: Reg)
    requires Inv(w) && Enabled(w, Connect(c, reg))
    ensures Inv(Act(w, Connect(c, reg)))
  {
    var w' := Act(w, Connect(c, reg));
    forall agent, role ensures SlotSound(w', agent, role) {
      assert SlotSound(w, agent, role);
    }
    forall d | d in w'.conns ensures ConnSound(w', d) {
      if d != c {
        assert ConnSound(w, d);
        if ClosePending(w, d) { PendingKept(w, w', d); }
      }
    }
  }

  /** Registering fills one slot, and the host answers to the interactive agent if there is one. */
  lemma RegisterFillsOneSlot(hosts: Hosts, reg: Reg, c: ConnId, now: int)
    ensures var after := AfterRegister(hosts, reg, c, now);
            && after.Keys == hosts.Keys + {reg.agent}
            && (forall agent, role :: SlotOf(after, agent, role)
                  == if agent == reg.agent && role == reg.Role() then Some(c) else SlotOf(hosts, agent, role))
            && (forall agent :: agent in hosts && agent != reg.agent ==> after[agent] == hosts[agent])
            && after[reg.agent].online
            && after[reg.agent].reg ==
               (if reg.Role() == Interactive || SlotOf(hosts, reg.agent, Interactive).None? then reg
                else hosts[reg.agent].reg)
  {
    var after := AfterRegister(hosts, reg, c, now);
    forall agent, role
      ensures SlotOf(after, agent, role)
           == if agent == reg.agent && role == reg.Role() then Some(c) else SlotOf(hosts, agent, role)
    {
      if agent == reg.agent {
        match role { case Interactive => case Elevated => case Console => }
      }
    }
  }

  lemma RegisterKeepsHosts(w: World, c: ConnId, now: int)
    requires Inv(w) && Enabled(w, Register(c, now))
    ensures var w' := Act(w, Register(c, now)); forall agent :: agent in w'.hosts ==> HostSound(w', agent)
  {
    var w' := Act(w, Register(c, now));
    var reg := w.conns[c].reg;
    RegisterFillsOneSlot(w.hosts, reg, c, now);
    forall agent | agent in w'.hosts ensures HostSound(w', agent) {
      assert agent in w.hosts ==> HostSound(w, agent);
      assert SlotOf(w'.hosts, reg.agent, reg.Role()) == Some(c);
      assert SlotOf(w'.hosts, agent, Interactive) == w'.hosts[agent].conn;
    }
  }

  lemma RegisterKeepsSlots(w: World, c: ConnId, now: int)
    requires Inv(w) && Enabled(w, Register(c, now))
    ensures var w' := Act(w, Register(c, now));
            w'.displaced <= w'.conns.Keys && forall agent, role :: SlotSound(w', agent, role)
  {
    var w' := Act(w, Register(c, now));
    var reg := w.conns[c].reg;
    RegisterFillsOneSlot(w.hosts, reg, c, now);
    assert ConnSound(w, c) && SlotSound(w, reg.agent, reg.Role());
    forall agent, role ensures SlotSound(w', agent, role) {
      assert SlotSound(w, agent, role);
    }
  }

  lemma RegisterKeepsConns(w: World, c: ConnId, now: int)
    requires Inv(w) && Enabled(w, Register(c, now))
    ensures var w' := Act(w, Register(c, now)); forall d :: d in w'.conns ==> ConnSound(w', d)
  {
    var w' := Act(w, Register(c, now));
    var reg := w.conns[c].reg;
    var old_ := SlotOf(w.hosts, reg.agent, reg.Role());
    RegisterFillsOneSlot(w.hosts, reg, c, now);
    assert SlotSound(w, reg.agent, reg.Role()) && ConnSound(w, c);
    forall d | d in w'.conns ensures ConnSound(w', d) {
      assert ConnSound(w, d);
      if ClosePending(w, d) { PendingKept(w, w', d); }
      if old_ == Some(d) {
        assert w'.conns[c].phase == ClosingOld(d);
        assert ClosePending(w', d);
      }
    }
  }

  lemma ShutKeepsInv(w: World, c: ConnId)
    requires Inv(w) && c in w.conns
    ensures Inv(w.(conns := Shut(w.conns, c)))
  {
    var w' := w.(conns := Shut(w.conns, c));
    forall agent | agent in w'.hosts ensures HostSound(w', agent) {
      assert HostSound(w, agent);
    }
    forall agent, role ensures SlotSound(w', agent, role) {
      assert SlotSound(w, agent, role);
    }
    forall d | d in w'.conns ensures ConnSound(w', d) {
      assert ConnSound(w, d);
      if ClosePending(w, d) { PendingKept(w, w', d); }
    }
  }

  /** A handler moves on without touching the registry; if it was about to close something, that is closed. */
  lemma MoveKeepsInv(w: World, c: ConnId, phase: Phase)
    requires Inv(w) && c in w.conns && Attached(w.conns[c]) && (phase.Reading? || phase.Ending?)
    requires w.conns[c].phase.ClosingOld? ==> !w.conns[w.conns[c].phase.displaced].open
    ensures Inv(w.(conns := Moved(w.conns, c, phase)))
  {
    var w' := w.(conns := Moved(w.conns, c, phase));
    forall agent | agent in w'.hosts ensures HostSound(w', agent) {
      assert HostSound(w, agent);
    }
    forall agent, role ensures SlotSound(w', agent, role) {
      assert SlotSound(w, agent, role);
    }
    forall d | d in w'.conns ensures ConnSound(w', d) {
      assert ConnSound(w, d);
      if ClosePending(w, d) && w.conns[c].phase != ClosingOld(d) { PendingKept(w, w', d); }
    }
  }

  lemma DetachKeepsHosts(w: World, c: ConnId)
    requires Inv(w) && Enabled(w, Detach(c))
    ensures var w' := Act(w, Detach(c)); forall agent :: agent in w'.hosts ==> HostSound(w', agent)
  {
    var w' := Act(w, Detach(c));
    forall agent | agent in w'.hosts ensures HostSound(w', agent) {
      assert HostSound(w, agent);
    }
  }

  lemma DetachKeepsSlots(w: World, c: ConnId)
    requires Inv(w) && Enabled(w, Detach(c))
    ensures var w' := Act(w, Detach(c));
            w'.displaced <= w'.conns.Keys && forall agent, role :: SlotSound(w', agent, role)
  {
    var w' := Act(w, Detach(c));
    forall agent, role ensures SlotSound(w', agent, role) {
      assert SlotSound(w, agent, role);
    }
  }

  lemma DetachKeepsConns(w: World, c: ConnId)
    requires Inv(w) && Enabled(w, Detach(c))
    ensures var w' := Act(w, Detach(c)); forall d :: d in w'.conns ==> ConnSound(w', d)
  {
    var w' := Act(w, Detach(c));
    forall d | d in w'.conns ensures ConnSound(w', d) {
      assert ConnSound(w, d);
      if ClosePending(w, d) { PendingKept(w, w', d); }
    }
  }

  lemma HostsOnlyKeepsInv(w: World, hosts: Hosts)
    requires Inv(w)
    requires forall agent, role :: SlotOf(hosts, agent, role) == SlotOf(w.hosts, agent, role)
    requires forall agent :: agent in hosts ==> HostSound(w.(hosts := hosts), agent)
    ensures Inv(w.(hosts := hosts))
  {
    var w' := w.(hosts := hosts);
    forall agent, role ensures SlotSound(w', agent, role) {
      assert SlotSound(w, agent, role);
    }
    forall d | d in w'.conns ensures ConnSound(w', d) {
      assert ConnSound(w, d);
      if ClosePending(w, d) { PendingKept(w, w', d); }
    }
  }

  lemma ActKeepsInv(w: World, a: Action)
    requires Inv(w) && Enabled(w, a)
    ensures Inv(Act(w, a))
  {
    match a
    case Connect(c, reg) =>
      ConnectKeepsInv(w, c, reg);
    case Register(c, now) =>
      RegisterKeepsHosts(w, c, now);
      RegisterKeepsSlots(w, c, now);
      RegisterKeepsConns(w, c, now);
    case CloseOld(c) =>
      var shut := w.(conns := Shut(w.conns, w.conns[c].phase.displaced));
      ShutKeepsInv(w, w.conns[c].phase.displaced);
      MoveKeepsInv(shut, c, Reading);
    case Close(c) =>
      ShutKeepsInv(w, c);
    case ReadFails(c) =>
      ShutKeepsInv(w, c);
      MoveKeepsInv(w.(conns := Shut(w.conns, c)), c, Ending);
    case Detach(c) =>
      DetachKeepsHosts(w, c);
      DetachKeepsSlots(w, c);
      DetachKeepsConns(w, c);
    case Report(c, m, now) =>
      var agent := w.conns[c].reg.agent;
      assert agent in w.hosts ==> HostSound(w, agent);
      assert forall b :: b in w.hosts ==> HostSound(w, b);
      HostsOnlyKeepsInv(w, AfterMetrics(w.hosts, agent, m, now));
    case Remove(agent) =>
      assert forall b :: b in w.hosts ==> HostSound(w, b);
      HostsOnlyKeepsInv(w, AfterRemove(w.hosts, agent));
  }

  /** The registry and its handlers stay sound under every interleaving. */
  lemma {:induction false} EveryInterleavingIsSound(actions: seq<Action>)
    ensures Inv(Play(actions))
  {
    if actions != [] {
      var pre, a := Play(actions[..|actions| - 1]), actions[|actions| - 1];
      EveryInterleavingIsSound(actions[..|actions| - 1]);
      if Enabled(pre, a) {
        ActKeepsInv(pre, a);
      }
    }
  }

  // ---------------------------------------------------------------- what the protocol promises

  /** Whatever the handlers did so far, a host is online exactly while something is attached to it. */
  lemma OnlineExactlyWhenAttached(actions: seq<Action>, agent: string)
    requires agent in Play(actions).hosts
    ensures var w := Play(actions);
            w.hosts[agent].online <==>
            exists c :: c in w.conns && Attached(w.conns[c]) && c !in w.displaced && w.conns[c].reg.agent == agent
  {
    EveryInterleavingIsSound(actions);
    var w := Play(actions);
    var h := w.hosts[agent];
    assert HostSound(w, agent);
    forall role | h.Slot(role).Some?
      ensures var c := h.Slot(role).value;
              c in w.conns && Attached(w.conns[c]) && c !in w.displaced && w.conns[c].reg.agent == agent
    {
      assert SlotSound(w, agent, role) && SlotOf(w.hosts, agent, role) == h.Slot(role);
    }
    if h.AnyConn() {
      assert h.Slot(Interactive).Some? || h.Slot(Elevated).Some? || h.Slot(Console).Some?;
    }
    forall c | c in w.conns && Attached(w.conns[c]) && c !in w.displaced && w.conns[c].reg.agent == agent
      ensures h.AnyConn()
    {
      assert ConnSound(w, c) && Seated(w, c);
    }
  }

  /** A connection sits in at most one slot of the whole registry, and every lookup finds a connection of that host. */
  lemma OneSlotPerConnection(actions: seq<Action>, c: ConnId, agent: string, role: Role, agent': string, role': Role)
    requires SlotOf(Play(actions).hosts, agent, role) == Some(c)
    requires SlotOf(Play(actions).hosts, agent', role') == Some(c)
    ensures agent == agent' && role == role'
    ensures c in Play(actions).conns && Play(actions).conns[c].reg.agent == agent
  {
    EveryInterleavingIsSound(actions);
    assert SlotSound(Play(actions), agent, role) && SlotSound(Play(actions), agent', role');
  }

  /**
   * A connection whose handler still runs and which is out of its slot lost it to another one, and
   * unless it is closed already, some handler is about to close it.
   */
  lemma OutOfSlotMeansClosing(actions: seq<Action>, c: ConnId)
    requires var w := Play(actions); c in w.conns && Attached(w.conns[c]) && !Seated(w, c)
    ensures c in Play(actions).displaced
    ensures Play(actions).conns[c].open ==> ClosePending(Play(actions), c)
  {
    EveryInterleavingIsSound(actions);
    assert ConnSound(Play(actions), c);
  }

  /** While an interactive agent is attached the host's identity is that agent's own registration. */
  lemma InteractiveOwnsIdentity(actions: seq<Action>, agent: string)
    requires SlotOf(Play(actions).hosts, agent, Interactive).Some?
    ensures var w := Play(actions);
            var c := SlotOf(w.hosts, agent, Interactive).value;
            c in w.conns && w.hosts[agent].reg == w.conns[c].reg
  {
    EveryInterleavingIsSound(actions);
    assert HostSound(Play(actions), agent);
  }

  /** A disconnect, however late, clears the slots that hold this very connection and nothing else. */
  lemma LateDisconnectEvictsNothingElse(w: World, c: ConnId, agent: string, role: Role)
    requires Enabled(w, Detach(c)) && Inv(w)
    ensures var w' := Act(w, Detach(c));
            && SlotOf(w'.hosts, agent, role) == Without(SlotOf(w.hosts, agent, role), c)
            && w'.hosts.Keys == w.hosts.Keys
            && (agent in w.hosts ==> w'.hosts[agent].reg == w.hosts[agent].reg)
            && (c in w.displaced ==> w'.hosts == w.hosts)
  {
    assert SlotSound(w, agent, role) && ConnSound(w, c);
    DisplacedDisconnectIsIdle(w, c);
    match role { case Interactive => case Elevated => case Console => }
  }

  lemma DisplacedDisconnectIsIdle(w: World, c: ConnId)
    requires Enabled(w, Detach(c)) && Inv(w)
    ensures c in w.displaced ==> Act(w, Detach(c)).hosts == w.hosts
  {
    var mine := w.conns[c].reg.agent;
    if c in w.displaced && mine in w.hosts {
      var h := w.hosts[mine];
      assert HostSound(w, mine);
      assert SlotSound(w, mine, Interactive) && SlotOf(w.hosts, mine, Interactive) == h.conn;
      assert SlotSound(w, mine, Elevated) && SlotOf(w.hosts, mine, Elevated) == h.elevConn;
      assert SlotSound(w, mine, Console) && SlotOf(w.hosts, mine, Console) == h.consConn;
      assert Act(w, Detach(c)).hosts[mine] == h;
    }
  }

  /** Only its own end or a successor in the same slot ever takes a connection out of its slot. */
  lemma EvictedOnlyBySelfOrSuccessor(w: World, a: Action, c: ConnId)
    requires Inv(w) && Enabled(w, a) && c in w.conns && Seated(w, c) && !Seated(Act(w, a), c)
    ensures || a == Detach(c)
            || (&& a.Register? && w.conns[a.c].reg.agent == w.conns[c].reg.agent
                && w.conns[a.c].reg.Role() == w.conns[c].reg.Role())
  {
    var reg := w.conns[c].reg;
    assert SlotSound(w, reg.agent, reg.Role());
    match a
    case Register(d, now) => RegisterFillsOneSlot(w.hosts, w.conns[d].reg, d, now);
    case Detach(d) => LateDisconnectEvictsNothingElse(w, d, reg.agent, reg.Role());
    case _ =>
  }

  /** A host leaves the registry only by a removal, and only when nothing undisplaced is attached to it. */
  lemma HostsLeaveOnlyEmpty(w: World, a: Action, agent: string)
    requires Inv(w) && Enabled(w, a) && agent in w.hosts && agent !in Act(w, a).hosts
    ensures a == Remove(agent) && !w.hosts[agent].AnyConn()
    ensures forall c :: c in w.conns && w.conns[c].reg.agent == agent && Attached(w.conns[c]) ==> c in w.displaced
  {
    forall c | c in w.conns && w.conns[c].reg.agent == agent && Attached(w.conns[c])
      ensures c in w.displaced
    {
      assert ConnSound(w, c);
    }
  }

  /** Nothing leaks: once every handler has finished, every host is offline and can be removed. */
  lemma AllFinishedAllRemovable(actions: seq<Action>, agent: string)
    requires var w := Play(actions); agent in w.hosts && forall c :: c in w.conns ==> w.conns[c].phase.Finished?
    ensures !Play(actions).hosts[agent].online && Removable(Play(actions).hosts, agent)
    ensures agent !in Play(actions + [Remove(agent)]).hosts
  {
    PlayOneMore(actions, Remove(agent));
    EveryInterleavingIsSound(actions);
    OnlineExactlyWhenAttached(actions, agent);
    assert HostSound(Play(actions), agent);
  }

  /**
   * canStream is exact: it holds if and only if the host advertises streaming and an interactive agent or a
   * console worker of it is attached, and then the connection it serves from is one of these.
   */
  lemma CanStreamHasScreen(actions: seq<Action>, agent: string)
    requires agent in Play(actions).hosts
    ensures var w := Play(actions);
            && (w.hosts[agent].CanStream() <==>
                w.hosts[agent].reg.canStream && exists c :: c in w.conns && OnScreen(w, c, agent))
            && (w.hosts[agent].CanStream() ==>
                  var c := w.hosts[agent].ScreenConn().value; c in w.conns && OnScreen(w, c, agent))
  {
    EveryInterleavingIsSound(actions);
    var w := Play(actions);
    var h := w.hosts[agent];
    assert SlotSound(w, agent, Console) && SlotOf(w.hosts, agent, Console) == h.consConn;
    assert SlotSound(w, agent, Interactive) && SlotOf(w.hosts, agent, Interactive) == h.conn;
    forall c | c in w.conns && OnScreen(w, c, agent) ensures h.ScreenConn().Some? {
      assert ConnSound(w, c) && Seated(w, c);
    }
  }

  /** An attached, undisplaced connection of the host that has a desktop to show. */
  predicate OnScreen(w: World, c: ConnId, agent: string)
    requires c in w.conns
  {
    Attached(w.conns[c]) && c !in w.displaced && w.conns[c].reg.agent == agent && w.conns[c].reg.Role() != Elevated
  }

  /** An attached, undisplaced connection of the host: its user's agent, its privileged helper, or its console worker. */
  predicate Serves(w: World, c: ConnId, agent: string, console: bool, elevated: bool) {
    && c in w.conns && Attached(w.conns[c]) && c !in w.displaced && w.conns[c].reg.agent == agent
    && w.conns[c].reg.console == console && (console || w.conns[c].reg.elevated == elevated)
  }

  lemma ServerIsSeated(actions: seq<Action>, agent: string, c: ConnId, console: bool, elevated: bool)
    requires Serves(Play(actions), c, agent, console, elevated)
    ensures var w, role := Play(actions), if console then Console else if elevated then Elevated else Interactive;
            SlotOf(w.hosts, agent, role) == Some(c)
  {
    EveryInterleavingIsSound(actions);
    assert ConnSound(Play(actions), c) && Seated(Play(actions), c);
  }

  lemma SeatedServes(actions: seq<Action>, agent: string, role: Role)
    ensures var w := Play(actions);
            var slot := SlotOf(w.hosts, agent, role);
            slot.Some? ==> Serves(w, slot.value, agent, role.Console?, role.Elevated?)
  {
    EveryInterleavingIsSound(actions);
    assert SlotSound(Play(actions), agent, role);
  }

  /** Commands run on the privileged helper whenever one is attached, else on the user's agent, else on nothing. */
  lemma CommandsRunPrivileged(actions: seq<Action>, agent: string)
    requires agent in Play(actions).hosts
    ensures var w := Play(actions);
            var conn := w.hosts[agent].ExecConn();
            && (forall c: ConnId :: Serves(w, c, agent, false, true) ==> conn == Some(c))
            && (forall c: ConnId :: Serves(w, c, agent, false, false) && conn != Some(c) ==>
                  conn.Some? && Serves(w, conn.value, agent, false, true))
            && (conn.Some? ==> Serves(w, conn.value, agent, false, true) || Serves(w, conn.value, agent, false, false))
  {
    var w := Play(actions);
    SeatedServes(actions, agent, Elevated);
    SeatedServes(actions, agent, Interactive);
    forall c: ConnId | Serves(w, c, agent, false, true) ensures w.hosts[agent].ExecConn() == Some(c) {
      ServerIsSeated(actions, agent, c, false, true);
    }
    forall c: ConnId | Serves(w, c, agent, false, false) ensures w.hosts[agent].conn == Some(c) {
      ServerIsSeated(actions, agent, c, false, false);
    }
  }

  /** Screens are served by the console worker whenever one is attached, else by the user's agent, else by nothing. */
  lemma ScreensFollowTheConsole(actions: seq<Action>, agent: string)
    requires agent in Play(actions).hosts
    ensures var w := Play(actions);
            var conn := w.hosts[agent].ScreenConn();
            && (forall c: ConnId, e :: Serves(w, c, agent, true, e) ==> conn == Some(c))
            && (forall c: ConnId :: Serves(w, c, agent, false, false) && conn != Some(c) ==>
                  conn.Some? && Serves(w, conn.value, agent, true, false))
            && (conn.Some? ==> Serves(w, conn.value, agent, true, false) || Serves(w, conn.value, agent, false, false))
  {
    var w := Play(actions);
    SeatedServes(actions, agent, Console);
    SeatedServes(actions, agent, Interactive);
    forall c: ConnId, e | Serves(w, c, agent, true, e) ensures w.hosts[agent].ScreenConn() == Some(c) {
      ServerIsSeated(actions, agent, c, true, e);
    }
    forall c: ConnId | Serves(w, c, agent, false, false) ensures w.hosts[agent].conn == Some(c) {
      ServerIsSeated(actions, agent, c, false, false);
    }
  }

  /** canExec holds exactly if a privileged helper is attached, or something is and the host advertises exec. */
  lemma CanExecExactly(actions: seq<Action>, agent: string)
    requires agent in Play(actions).hosts
    ensures var w := Play(actions);
            w.hosts[agent].CanExec() <==>
            || (exists c: ConnId :: Serves(w, c, agent, false, true))
            || (w.hosts[agent].reg.canExec && exists c: ConnId, console, elevated :: Serves(w, c, agent, console, elevated))
  {
    EveryInterleavingIsSound(actions);
    var w := Play(actions);
    var h := w.hosts[agent];
    assert HostSound(w, agent);
    SeatedServes(actions, agent, Elevated);
    SeatedServes(actions, agent, Interactive);
    SeatedServes(actions, agent, Console);
    forall c: ConnId, console, elevated | Serves(w, c, agent, console, elevated)
      ensures h.AnyConn() && (!console && elevated ==> h.elevConn == Some(c))
    {
      ServerIsSeated(actions, agent, c, console, elevated);
    }
  }

  // ---------------------------------------------------------------- what is reported, and how handlers end

  /** The metrics last reported of a host since it was in the registry. */
  function LastReport(actions: seq<Action>, agent: string): Option<nat> {
    if actions == [] then None
    else
      var pre, a := actions[..|actions| - 1], actions[|actions| - 1];
      var w, before := Play(pre), LastReport(pre, agent);
      if agent !in Play(actions).hosts then None
      else if a.Report? && Enabled(w, a) && w.conns[a.c].reg.agent == agent then Some(a.m) else before
  }

  /** When a host last registered or reported. */
  function LastHeard(actions: seq<Action>, agent: string): int {
    if actions == [] then 0
    else
      var pre, a := actions[..|actions| - 1], actions[|actions| - 1];
      var w, before := Play(pre), LastHeard(pre, agent);
      if a.Report? && Enabled(w, a) && w.conns[a.c].reg.agent == agent then a.now
      else if a.Register? && Enabled(w, a) && w.conns[a.c].reg.agent == agent then a.now
      else before
  }

  /** A host shows its last report, and when it was last heard of. */
  lemma {:induction false} HostsShowTheLastReport(actions: seq<Action>, agent: string)
    ensures agent in Play(actions).hosts ==>
              var h := Play(actions).hosts[agent];
              h.metrics == LastReport(actions, agent) && h.lastSeen == LastHeard(actions, agent)
    ensures agent !in Play(actions).hosts ==> LastReport(actions, agent) == None
  {
    if actions != [] {
      HostsShowTheLastReport(actions[..|actions| - 1], agent);
    }
  }

  lemma PlayOneMore(actions: seq<Action>, a: Action)
    ensures Play(actions + [a]) == if Enabled(Play(actions), a) then Act(Play(actions), a) else Play(actions)
  {
    assert (actions + [a])[..|actions|] == actions;
  }

  /** Only a handler that reads its connection reports anything. */
  lemma OnlyReadersReport(actions: seq<Action>, c: ConnId, m: nat, now: int)
    requires c !in Play(actions).conns || !Play(actions).conns[c].phase.Reading?
    ensures Play(actions + [Report(c, m, now)]) == Play(actions)
  {
    PlayOneMore(actions, Report(c, m, now));
  }

  /** A new connection can always register. */
  lemma ConnectionsCanRegister(actions: seq<Action>, c: ConnId, reg: Reg, now: int)
    requires c !in Play(actions).conns
    ensures var w := Play(actions + [Connect(c, reg)] + [Register(c, now)]);
            SlotOf(w.hosts, reg.agent, reg.Role()) == Some(c) && w.hosts[reg.agent].online
            && c in w.conns && w.conns[c].open && w.conns[c].reg == reg && Attached(w.conns[c])
  {
    PlayOneMore(actions, Connect(c, reg));
    PlayOneMore(actions + [Connect(c, reg)], Register(c, now));
    RegisterFillsOneSlot(Play(actions).hosts, reg, c, now);
    EveryInterleavingIsSound(actions);
    assert SlotSound(Play(actions), reg.agent, reg.Role());
  }

  predicate InPhase(actions: seq<Action>, c: ConnId, phase: Phase) {
    c in Play(actions).conns && Play(actions).conns[c].phase == phase
  }

  lemma RegisterMovesOn(actions: seq<Action>, c: ConnId)
    requires InPhase(actions, c, Opening)
    ensures InPhase(actions + [Register(c, 0)], c, Reading)
            || exists old_ :: InPhase(actions + [Register(c, 0)], c, ClosingOld(old_))
  {
    PlayOneMore(actions, Register(c, 0));
    var old_ := SlotOf(Play(actions).hosts, Play(actions).conns[c].reg.agent, Play(actions).conns[c].reg.Role());
    if old_.Some? { assert InPhase(actions + [Register(c, 0)], c, ClosingOld(old_.value)); }
  }

  lemma CloseOldMovesOn(actions: seq<Action>, c: ConnId, old_: ConnId)
    requires InPhase(actions, c, ClosingOld(old_))
    ensures InPhase(actions + [CloseOld(c)], c, Reading)
  {
    EveryInterleavingIsSound(actions);
    assert ConnSound(Play(actions), c);
    PlayOneMore(actions, CloseOld(c));
  }

  lemma EndMovesOn(actions: seq<Action>, c: ConnId)
    ensures InPhase(actions, c, Reading) ==> InPhase(actions + [ReadFails(c)], c, Ending)
    ensures InPhase(actions, c, Ending) ==> InPhase(actions + [Detach(c)], c, Finished)
  {
    PlayOneMore(actions, ReadFails(c));
    PlayOneMore(actions, Detach(c));
  }

  lemma FinishedHaveLeft(actions: seq<Action>, c: ConnId)
    requires InPhase(actions, c, Finished)
    ensures forall agent, role :: SlotOf(Play(actions).hosts, agent, role) != Some(c)
  {
    EveryInterleavingIsSound(actions);
    forall agent, role ensures SlotOf(Play(actions).hosts, agent, role) != Some(c) {
      assert SlotSound(Play(actions), agent, role);
    }
  }

  /** Whatever else goes on, a handler can be run to its end by its own steps, and has then left the registry. */
  lemma HandlersCanFinish(actions: seq<Action>, c: ConnId) returns (later: seq<Action>)
    requires c in Play(actions).conns
    ensures actions <= later && InPhase(later, c, Finished)
    ensures forall agent, role :: SlotOf(Play(later).hosts, agent, role) != Some(c)
  {
    later := actions;
    if InPhase(later, c, Opening) {
      RegisterMovesOn(later, c);
      later := later + [Register(c, 0)];
    }
    if old_ :| InPhase(later, c, ClosingOld(old_)) {
      CloseOldMovesOn(later, c, old_);
      later := later + [CloseOld(c)];
    }
    if InPhase(later, c, Reading) {
      EndMovesOn(later, c);
      later := later + [ReadFails(c)];
    }
    if InPhase(later, c, Ending) {
      EndMovesOn(later, c);
      later := later + [Detach(c)];
    }
    FinishedHaveLeft(later, c);
  }

  /**
   * canExec does not promise a connection to run on: it is wrong exactly for a host that advertises
   * exec and has nothing but its console worker attached.
   */
  lemma CanExecHasConnectionUnlessConsoleOnly(actions: seq<Action>, agent: string)
    requires agent in Play(actions).hosts
    ensures var h := Play(actions).hosts[agent];
            (h.CanExec() && h.ExecConn().None?)
            <==> (h.reg.canExec && h.consConn.Some? && h.elevConn.None? && h.conn.None?)
  {
    EveryInterleavingIsSound(actions);
    assert HostSound(Play(actions), agent);
  }

  /** Such a host is reached by one console worker registering. */
  lemma ConsoleOnlyHostIsReachable(agent: string)
    ensures var reg := Reg(agent, true, false, true, true);
            var w := Play([Connect(0, reg), Register(0, 0)]);
            agent in w.hosts && w.hosts[agent].CanExec() && w.hosts[agent].ExecConn().None?
  {
    var reg := Reg(agent, true, false, true, true);
    var actions := [Connect(0, reg), Register(0, 0)];
    assert actions[..1] == [Connect(0, reg)] && actions[..1][..0] == [];
    assert Play(actions[..1]) == Act(NOTHING, Connect(0, reg));
  }
}
