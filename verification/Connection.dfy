/** The visualizer connection: which client is active, which were disposed, when the re-scan
    timer runs, and how a failed or lost connection falls over to another instance. */
module Connection {
  import opened Selections
  import opened Text

  datatype Instance = Instance(pid: int, name: string)
  datatype Target = Target(name: string, active: bool)
  datatype AuthState = Connecting | ConnectionFailed | AuthPending | AuthOk | AuthFailed

  /** A pipe or TCP client, as far as the form can tell. Only a TCP client has a network target. */
  class VisualizerClient {
    const isPipe: bool
    const networkTarget: Option<Target>
    var connectedPid: int
    var disposed: bool
    var messageReceivedAttached: bool
    var disconnectedAttached: bool

    constructor (networkTarget: Option<Target>)
      ensures this.networkTarget == networkTarget && isPipe == networkTarget.None? && connectedPid == 0
      ensures !disposed && messageReceivedAttached && disconnectedAttached
    {
      this.networkTarget, isPipe := networkTarget, networkTarget.None?;
      connectedPid, disposed := 0, false;
      messageReceivedAttached, disconnectedAttached := true, true;
    }

    method DetachAndDispose()
      modifies this
      ensures disposed && !messageReceivedAttached && !disconnectedAttached && connectedPid == 0
    {
      disconnectedAttached := false;
      messageReceivedAttached := false;
      connectedPid := 0;
      disposed := true;
    }
  }

  /** The events that reach the form after it has loaded. */
  datatype Event =
    | AutoScanTick
    | ScanClicked(config: seq<Target>)
    | InstanceSelected(index: int)
    | PipeDisconnected
    | AuthStateChanged(state: AuthState)
    | LaunchedInstanceFound(pid: int)
    | LaunchTimedOut
    | SendStarts
    | SendEnds
    | Closing

  function ActiveTargets(config: seq<Target>): seq<Target> {
    if config == [] then []
    else (if config[0].active then [config[0]] else []) + ActiveTargets(config[1..])
  }

  /** They are exactly the targets marked active, in the order of the configuration. */
  lemma {:induction false} ActiveInOrder(config: seq<Target>)
    ensures ActiveTargets(config) == Kept(config, (t: Target) => t.active)
  {
    if config != [] {
      ActiveInOrder(config[1..]);
      KeptFront(config, (t: Target) => t.active);
    }
  }

  /** The first instance with the greatest process id. */
  predicate IsHighest(instances: seq<Instance>, i: int) {
    && 0 <= i < |instances|
    && (forall j :: 0 <= j < |instances| ==> instances[j].pid <= instances[i].pid)
    && (forall j :: 0 <= j < i ==> instances[j].pid < instances[i].pid)
  }

  method HighestPid(instances: seq<Instance>) returns (index: int)
    requires instances != []
    ensures IsHighest(instances, index)
  {
    index := 0;
    for i := 1 to |instances|
      invariant 0 <= index < i
      invariant forall j :: 0 <= j < i ==> instances[j].pid <= instances[index].pid
      invariant forall j :: 0 <= j < index ==> instances[j].pid < instances[index].pid
    {
      if instances[i].pid > instances[index].pid { index := i; }
    }
  }

  lemma HighestIsUnique(instances: seq<Instance>, i: int, j: int)
    requires IsHighest(instances, i) && IsHighest(instances, j)
    ensures i == j
  {
    assert instances[i].pid <= instances[j].pid <= instances[i].pid;
  }

  /** Who is at the other end. */
  datatype Link = Nobody | Pipe(pid: int) | Network(target: Target)

  /** What there is to see between two events. */
  datatype Snapshot = Snapshot(
    client: VisualizerClient?, link: Link, clock: nat, sending: bool, instances: seq<Instance>,
    configured: seq<Target>, targets: seq<Target>, selected: int)

  class ConnectionManager {
    // What the surroundings answer: the instances found by the t-th look, and whether the
    // connection attempt made as the t-th answer succeeds.
    const discover: nat -> seq<Instance>
    const accepts: nat -> bool
    var clock: nat

    var activeClient: VisualizerClient?
    var autoScanTimerEnabled: bool
    var sendingMessage: bool
    var discoveredInstances: seq<Instance>
    var configuredTargets: seq<Target>
    var activeNetworkTargets: seq<Target>
    var selectedIndex: int

    ghost var created: set<VisualizerClient>

    /** Every client ever created is the active one, with its handlers, or was detached and
        disposed; and without an active client the re-scan timer runs. */
    ghost predicate Valid()
      reads this, created
    {
      && (activeClient != null ==> activeClient in created)
      && (forall c :: c in created ==>
            if c == activeClient then !c.disposed && c.messageReceivedAttached && c.disconnectedAttached
            else c.disposed && !c.messageReceivedAttached && !c.disconnectedAttached)
      && (activeClient == null ==> autoScanTimerEnabled)
    }

    /** The form as it has been loaded with nothing found so far. */
    constructor (discover: nat -> seq<Instance>, accepts: nat -> bool, config: seq<Target>)
      ensures Valid() && created == {} && activeClient == null
      ensures this.discover == discover && this.accepts == accepts && clock == 0
    {
      this.discover, this.accepts, this.clock := discover, accepts, 0;
      activeClient, created := null, {};
      autoScanTimerEnabled, sendingMessage := true, false;
      discoveredInstances, configuredTargets, activeNetworkTargets := [], config, [];
      selectedIndex := 0;
    }

    method DiscoverVisualizers() returns (instances: seq<Instance>)
      modifies this`clock
      ensures clock == old(clock) + 1 && instances == discover(old(clock))
    {
      instances := discover(clock);
      clock := clock + 1;
    }

    method ScanAndPopulateVisualizers()
      modifies this`clock, this`discoveredInstances, this`activeNetworkTargets, this`selectedIndex
      ensures clock == old(clock) + 1 && discoveredInstances == discover(old(clock))
      ensures activeNetworkTargets == ActiveTargets(configuredTargets) && selectedIndex == 0
    {
      discoveredInstances := DiscoverVisualizers();
      activeNetworkTargets := ActiveTargets(configuredTargets);
      selectedIndex := 0;
    }

    method EnsureAutoScanTimerState()
      modifies this`autoScanTimerEnabled
      ensures autoScanTimerEnabled <==> activeClient == null
    {
      if activeClient != null {
        if autoScanTimerEnabled { autoScanTimerEnabled := false; }
      } else if !autoScanTimerEnabled {
        autoScanTimerEnabled := true;
      }
    }

    method DetachAndDisposeActiveClient()
      requires Valid()
      modifies this`activeClient, this`autoScanTimerEnabled, activeClient
      ensures Valid() && activeClient == null
      ensures old(activeClient) == null ==> autoScanTimerEnabled == old(autoScanTimerEnabled)
    {
      if activeClient == null { return; }
      activeClient.DetachAndDispose();
      activeClient := null;
      EnsureAutoScanTimerState();
    }

    function Link(): Link
      reads this, activeClient
    {
      if activeClient == null then Nobody
      else if activeClient.isPipe then Pipe(activeClient.connectedPid)
      else if activeClient.networkTarget.Some? then Network(activeClient.networkTarget.value)
      else Nobody
    }

    function Now(): Snapshot
      reads this, activeClient
    {
      Snapshot(activeClient, Link(), clock, sendingMessage, discoveredInstances, configuredTargets,
               activeNetworkTargets, selectedIndex)
    }

    /** What an attempt to connect to an instance, made as answer c, has led to: the instance itself, or else
        one attempt more, with the greatest process id found then, or else no client. */
    ghost predicate Attempted(c: nat, target: Instance, t: Snapshot) {
      if accepts(c) then t.link == Pipe(target.pid)
      else if discover(c + 1) == [] then t.link == Nobody && t.instances == []
      else if accepts(c + 2) then
        t.instances == discover(c + 1) && IsHighest(t.instances, t.selected) &&
        t.link == Pipe(t.instances[t.selected].pid)
      else t.link == Nobody && t.instances == discover(c + 3)
    }

    /** A re-scan leaves a client alone and does nothing while a message is sent; otherwise the first instance
        found is attempted, and the first network target only if there is none. */
    ghost predicate Ticked(s: Snapshot, t: Snapshot) {
      if s.client != null || s.sending then t == s
      else if discover(s.clock) != [] then
        Attempted(s.clock + 2, discover(s.clock)[0], t) &&
        (accepts(s.clock + 2) ==> t.instances == discover(s.clock + 1) && t.selected == 0)
      else if s.targets != [] then t.link == Network(s.targets[0])
      else t.link == Nobody
    }

    /** A click scans afresh and attempts the first entry of the new list. */
    ghost predicate Scanned(s: Snapshot, config: seq<Target>, t: Snapshot) {
      t.configured == config &&
      if discover(s.clock) != [] then
        Attempted(s.clock + 1, discover(s.clock)[0], t) &&
        (accepts(s.clock + 1) ==> t.instances == discover(s.clock) && t.selected == 0)
      else if ActiveTargets(config) != [] then t.link == Network(ActiveTargets(config)[0])
      else t.link == Nobody
    }

    /** The entry at the index is attempted: an instance, a network target behind them, or nothing. */
    ghost predicate Selected(s: Snapshot, index: int, t: Snapshot) {
      var n := |s.instances|;
      if 0 <= index < n then
        Attempted(s.clock, s.instances[index], t) &&
        (accepts(s.clock) ==> t.instances == s.instances && t.selected == index)
      else if n <= index < n + |s.targets| then t.link == Network(s.targets[index - n])
      else t == s.(selected := index)
    }

    /** After a disconnect of the selected instance the greatest process id found is attempted; otherwise, and
        without instances, there is no client. */
    ghost predicate Disconnected(s: Snapshot, t: Snapshot) {
      var found := discover(s.clock);
      if SelectedIsConnected(s) && found != [] then
        exists h :: IsHighest(found, h) && Attempted(s.clock + 1, found[h], t) &&
          (accepts(s.clock + 1) ==> t.instances == found && t.selected == h)
      else t.link == Nobody && t.instances == found
    }

    ghost predicate SelectedIsConnected(s: Snapshot) {
      s.link.Pipe? && s.link.pid != 0 && 0 <= s.selected < |s.instances| && s.instances[s.selected].pid == s.link.pid
    }

    /** A launched instance that is found again is attempted; otherwise the client stays. */
    ghost predicate Launched(s: Snapshot, pid: int, t: Snapshot) {
      var found := discover(s.clock);
      if exists i :: 0 <= i < |found| && found[i].pid == pid then
        exists i :: 0 <= i < |found| && found[i].pid == pid && Attempted(s.clock + 1, found[i], t) &&
          (accepts(s.clock + 1) ==> t.instances == found && t.selected == i)
      else t.client == s.client && t.link == s.link && t.instances == found
    }

    /** What each event leads to. */
    ghost predicate Leads(s: Snapshot, e: Event, t: Snapshot) {
      match e
      case AutoScanTick => Ticked(s, t)
      case ScanClicked(config) => Scanned(s, config, t)
      case InstanceSelected(index) => Selected(s, index, t)
      case PipeDisconnected => Disconnected(s, t)
      case AuthStateChanged(state) =>
        if state in {ConnectionFailed, AuthFailed} then t == s.(client := null, link := Nobody) else t == s
      case LaunchedInstanceFound(pid) => Launched(s, pid, t)
      case LaunchTimedOut => t.client == s.client && t.link == s.link && t.instances == discover(s.clock)
      case SendStarts => t == s.(sending := true)
      case SendEnds => t == s.(sending := false)
      case Closing => t == s.(client := null, link := Nobody)
    }

    /** Connects to an instance; on failure, and unless this already is the fail-over, to the
        instance with the greatest process id among those found then. */
    method ConnectToInstance(target: Instance, autoSwitch: bool)
      requires Valid()
      modifies this, created
      ensures Valid() && fresh(created - old(created)) && old(created) <= created
      ensures clock <= old(clock) + if autoSwitch then 4 else 2
      ensures activeClient != null ==> activeClient !in old(created) && activeClient.isPipe && !autoScanTimerEnabled
      ensures configuredTargets == old(configuredTargets) && sendingMessage == old(sendingMessage)
      // connected at once
      ensures accepts(old(clock)) ==> activeClient != null && activeClient.connectedPid == target.pid
      ensures accepts(old(clock)) ==>
                clock == old(clock) + 1 && discoveredInstances == old(discoveredInstances) &&
                  selectedIndex == old(selectedIndex)
      // nothing to fall over to
      ensures !accepts(old(clock)) && !(autoSwitch && discover(old(clock) + 1) != []) ==>
                activeClient == null && clock == old(clock) + 2 && discoveredInstances == discover(old(clock) + 1)
      // fail-over
      ensures !accepts(old(clock)) && autoSwitch && discover(old(clock) + 1) != [] && accepts(old(clock) + 2) ==>
                && discoveredInstances == discover(old(clock) + 1) && IsHighest(discoveredInstances, selectedIndex)
                && activeClient != null && activeClient.connectedPid == discoveredInstances[selectedIndex].pid
      ensures !accepts(old(clock)) && autoSwitch && discover(old(clock) + 1) != [] && !accepts(old(clock) + 2) ==>
                activeClient == null && discoveredInstances == discover(old(clock) + 3)
      ensures autoSwitch ==> Attempted(old(clock), target, Now())
      decreases if autoSwitch then 1 else 0
    {
      var connected := TryConnect(target);
      if !connected && autoSwitch && |discoveredInstances| > 0 {
        selectedIndex := HighestPid(discoveredInstances);
        ConnectToInstance(discoveredInstances[selectedIndex], false);
      }
    }

    /** One attempt: the new client stays active if it connects; otherwise it is disposed again
        and the instances are listed afresh. */
    method TryConnect(target: Instance) returns (connected: bool)
      requires Valid()
      modifies this, created
      ensures Valid() && fresh(created - old(created)) && old(created) <= created
      ensures configuredTargets == old(configuredTargets) && sendingMessage == old(sendingMessage)
      ensures connected <==> accepts(old(clock))
      ensures connected ==>
                && activeClient != null && activeClient !in old(created)
                && activeClient.isPipe && activeClient.connectedPid == target.pid
                && !autoScanTimerEnabled && clock == old(clock) + 1
                && discoveredInstances == old(discoveredInstances) && selectedIndex == old(selectedIndex)
      ensures !connected ==>
                activeClient == null && clock == old(clock) + 2 && discoveredInstances == discover(old(clock) + 1)
    {
      var pipeClient := AttachPipeClient();
      connected := accepts(clock);
      clock := clock + 1;
      if connected {
        pipeClient.connectedPid := target.pid;
      } else {
        DetachAndDisposeActiveClient();
        ScanAndPopulateVisualizers();
      }
    }

    /** Replaces the active client by a new pipe client, which has not connected yet. */
    method AttachPipeClient() returns (pipeClient: VisualizerClient)
      requires Valid()
      modifies this`activeClient, this`created, this`autoScanTimerEnabled, activeClient
      ensures Valid() && fresh(pipeClient) && created == old(created) + {pipeClient}
      ensures activeClient == pipeClient && pipeClient.isPipe && !autoScanTimerEnabled
    {
      DetachAndDisposeActiveClient();
      pipeClient := new VisualizerClient(None);
      created := created + {pipeClient};
      activeClient := pipeClient;
      EnsureAutoScanTimerState();
    }

    /** The TCP client connects in the background; its progress comes back as AuthStateChanged. */
    method ConnectToNetworkTarget(target: Target)
      requires Valid()
      modifies this`activeClient, this`created, this`autoScanTimerEnabled, created
      ensures Valid() && fresh(created - old(created)) && old(created) <= created
      ensures activeClient != null && activeClient !in old(created)
      ensures !activeClient.isPipe && activeClient.networkTarget == Some(target)
    {
      DetachAndDisposeActiveClient();
      var client := new VisualizerClient(Some(target));
      created := created + {client};
      activeClient := client;
    }

    /** The 2 s re-scan. Found instances take precedence over network targets. */
    method AutoScanTimer_Tick()
      requires Valid()
      modifies this, created
      ensures Valid() && fresh(created - old(created)) && old(created) <= created
      ensures activeClient != null ==> !autoScanTimerEnabled
      ensures old(activeClient) != null ==>
                activeClient == old(activeClient) && created == old(created) && clock == old(clock)
      ensures Ticked(old(Now()), Now())
    {
      hide Attempted;
      if activeClient != null {
        autoScanTimerEnabled := false;
        return;
      }
      if sendingMessage { return; }
      var instances := DiscoverVisualizers();
      if |instances| > 0 {
        ScanAndPopulateVisualizers();
        ConnectToInstance(instances[0], true);
        EnsureAutoScanTimerState();
        return;
      }
      if |activeNetworkTargets| > 0 {
        ConnectToNetworkTarget(activeNetworkTargets[0]);
        EnsureAutoScanTimerState();
      }
    }

    method VisualizerScan_Click(config: seq<Target>)
      requires Valid()
      modifies this, created
      ensures Valid() && fresh(created - old(created)) && old(created) <= created
      ensures old(activeClient) != null ==> old(activeClient).disposed
      ensures Scanned(old(Now()), config, Now())
    {
      DetachAndDisposeActiveClient();
      configuredTargets := config;
      ScanAndPopulateVisualizers();
      if |discoveredInstances| > 0 {
        ConnectToInstance(discoveredInstances[0], true);
      } else if |activeNetworkTargets| > 0 {
        ConnectToNetworkTarget(activeNetworkTargets[0]);
      }
    }

    method WindowTitle_SelectedIndexChanged(index: int)
      requires Valid()
      modifies this, created
      ensures Valid() && fresh(created - old(created)) && old(created) <= created
      ensures 0 <= index < |old(discoveredInstances)| && accepts(old(clock)) ==>
                activeClient != null && activeClient !in old(created) && activeClient.isPipe &&
                activeClient.connectedPid == old(discoveredInstances)[index].pid
      ensures |old(discoveredInstances)| <= index < |old(discoveredInstances)| + |old(activeNetworkTargets)| ==>
                activeClient != null && activeClient !in old(created) &&
                activeClient.networkTarget == Some(old(activeNetworkTargets)[index - |old(discoveredInstances)|])
      ensures index < 0 || index >= |old(discoveredInstances)| + |old(activeNetworkTargets)| ==>
                activeClient == old(activeClient) && created == old(created) && clock == old(clock)
      ensures Selected(old(Now()), index, Now())
    {
      selectedIndex := index;
      if index < 0 { return; }
      if index < |discoveredInstances| {
        ConnectToInstance(discoveredInstances[index], true);
      } else if index - |discoveredInstances| < |activeNetworkTargets| {
        ConnectToNetworkTarget(activeNetworkTargets[index - |discoveredInstances|]);
      }
    }

    /** The client has disconnected by itself: it is disposed, the instances are listed afresh, the timer set. */
    method DropClosedClient()
      requires Valid()
      modifies this, activeClient
      ensures Valid() && activeClient == null && created == old(created) && clock == old(clock) + 1
      ensures old(activeClient) != null ==> old(activeClient).disposed
      ensures discoveredInstances == discover(old(clock)) && selectedIndex == 0
    {
      if activeClient != null {
        activeClient.DetachAndDispose();
        activeClient := null;
      }
      ScanAndPopulateVisualizers();
      EnsureAutoScanTimerState();
    }

    /** A disconnect notification, whichever client raised it: it may have been queued before the
        active client was replaced, and then the replacement is what gets disposed. */
    method OnPipeDisconnected()
      requires Valid()
      modifies this, created
      ensures Valid() && fresh(created - old(created)) && old(created) <= created
      ensures old(activeClient) != null ==> old(activeClient).disposed
      ensures activeClient == null || activeClient !in old(created)
      ensures activeClient != null ==> !autoScanTimerEnabled
      ensures Disconnected(old(Now()), Now())
    {
      hide Attempted, IsHighest;
      var closedPid := if activeClient != null && activeClient.isPipe then activeClient.connectedPid else 0;
      var wasSelected := closedPid != 0 && 0 <= selectedIndex < |discoveredInstances|
        && discoveredInstances[selectedIndex].pid == closedPid;
      DropClosedClient();
      if |discoveredInstances| == 0 { return; }
      if wasSelected {
        selectedIndex := HighestPid(discoveredInstances);
        ConnectToInstance(discoveredInstances[selectedIndex], true);
      }
    }

    /** The callback of any network client ever created; it is never unsubscribed, and on failure
        it detaches whatever client is active. */
    method OnAuthStateChanged(state: AuthState)
      requires Valid()
      modifies this`activeClient, this`autoScanTimerEnabled, activeClient
      ensures Valid() && created == old(created)
      ensures state in {ConnectionFailed, AuthFailed} ==> activeClient == null
      ensures state !in {ConnectionFailed, AuthFailed} ==> Now() == old(Now())
    {
      match state {
        case ConnectionFailed => DetachAndDisposeActiveClient();
        case AuthFailed => DetachAndDisposeActiveClient();
        case Connecting =>
        case AuthPending =>
        case AuthOk =>
      }
    }

    /** A launched instance has appeared: select it in a fresh list and connect. */
    method LaunchedInstance(pid: int)
      requires Valid()
      modifies this, created
      ensures Valid() && fresh(created - old(created)) && old(created) <= created
      ensures (exists i :: 0 <= i < |discover(old(clock))| && discover(old(clock))[i].pid == pid) &&
                accepts(old(clock) + 1) ==>
                activeClient != null && activeClient.connectedPid == pid
      ensures Launched(old(Now()), pid, Now())
    {
      hide Attempted;
      ScanAndPopulateVisualizers();
      for i := 0 to |discoveredInstances|
        invariant Valid() && created == old(created) && clock == old(clock) + 1
        invariant discoveredInstances == discover(old(clock)) && activeClient == old(activeClient)
        invariant forall j :: 0 <= j < i ==> discoveredInstances[j].pid != pid
      {
        if discoveredInstances[i].pid == pid {
          selectedIndex := i;
          ConnectToInstance(discoveredInstances[i], true);
          return;
        }
      }
    }

    method Handle(e: Event)
      requires Valid()
      modifies this, created
      ensures Valid() && fresh(created - old(created)) && old(created) <= created
      ensures Leads(old(Now()), e, Now())
    {
      match e {
        case AutoScanTick => AutoScanTimer_Tick();
        case ScanClicked(config) => VisualizerScan_Click(config);
        case InstanceSelected(index) => WindowTitle_SelectedIndexChanged(index);
        case PipeDisconnected => OnPipeDisconnected();
        case AuthStateChanged(state) => OnAuthStateChanged(state);
        case LaunchedInstanceFound(pid) => LaunchedInstance(pid);
        case LaunchTimedOut => ScanAndPopulateVisualizers();
        case SendStarts => sendingMessage := true;
        case SendEnds => sendingMessage := false;
        case Closing => DetachAndDisposeActiveClient();
      }
    }

    /** Whatever happens and whatever the surroundings answer, the invariant holds after each event, and each
        event leads from what was there before it to what its handler promises. */
    method Run(events: seq<Event>) returns (ghost trace: seq<Snapshot>)
      requires Valid()
      modifies this, created
      ensures Valid() && fresh(created - old(created))
      ensures forall c :: c in created && c != activeClient ==> c.disposed
      ensures |trace| == |events| + 1 && trace[0] == old(Now()) && trace[|events|] == Now()
      ensures forall i :: 0 <= i < |events| ==> Leads(trace[i], events[i], trace[i + 1])
    {
      hide Leads;
      trace := [Now()];
      for i := 0 to |events|
        invariant Valid() && fresh(created - old(created))
        invariant |trace| == i + 1 && trace[0] == old(Now()) && trace[i] == Now()
        invariant forall k :: 0 <= k < i ==> Leads(trace[k], events[k], trace[k + 1])
      {
        Handle(events[i]);
        trace := trace + [Now()];
      }
    }
  }
}
