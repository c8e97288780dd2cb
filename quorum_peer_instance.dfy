/**
 * The test agent that drives one quorum peer: configured first with its
 * server id (it then reserves a client and a quorum address and reports
 * them), and afterwards with `"<peer spec> <command>"` messages that start
 * or stop the peer; `Stop` is the final teardown.
 */
module Instance {
  import opened Wrappers
  import opened JavaStrings
  import opened PeerSpec
  import opened Polling
  import opened WorkDir

  /** The fixed timing parameters the peer is started with. */
  const SyncLimit: int := 3
  const InitLimit: int := 3
  const TickTime: int := 2000

  /** The report of a completed stop. */
  const StoppedReport: string := "stopped"

  /** The report of a completed start. */
  const StartedReport: string := "started"

  /**
   * A consensus peer, as far as the agent sees it: the arguments it was
   * constructed with. The consensus engine itself is not modelled.
   */
  datatype QuorumPeer = QuorumPeer(
    quorumPeers: map<int, QuorumServer>,
    dataDir: string,
    dataLogDir: string,
    clientPort: int,
    electionAlg: int,
    myId: int,
    tickTime: int,
    initLimit: int,
    syncLimit: int)

  /** The peer the start path constructs: both data directories are the working directory. */
  function NewPeer(quorumPeers: map<int, QuorumServer>, dir: string, clientPort: int, myId: int): QuorumPeer
  {
    QuorumPeer(quorumPeers, dir, dir, clientPort, 0, myId, TickTime, InitLimit, SyncLimit)
  }

  /** What the agent does to the world, in the order it does it. */
  datatype Effect =
    | Report(message: string)     // Reporter.report
    | Launch(peer: QuorumPeer)    // a new QuorumPeer, then its start()
    | Shutdown(peer: QuorumPeer)  // peer.shutdown()
    | Delete(path: Path)          // File.delete() during recursiveDelete

  /** How `configure` ended: normally, or by an exception it did not catch. */
  datatype Outcome = Returned | Threw(exception: JavaException)

  /**
   * What the outside world answers during one `configure` call: the address
   * of each reserved listening socket (`None` when reserving it failed with
   * an IOException), and the outcome of each readiness connect attempt.
   */
  datatype Environment = Environment(clientSocket: Option<Address>, quorumSocket: Option<Address>, probes: seq<bool>)

  /** The peer that is running after `effects`: the last one launched, unless it was shut down since. */
  function LivePeer(effects: seq<Effect>): Option<QuorumPeer>
    decreases |effects|
  {
    if |effects| == 0 then None
    else
      match effects[|effects| - 1]
      case Launch(p) => Some(p)
      case Shutdown(_) => None
      case _ => LivePeer(effects[..|effects| - 1])
  }

  /** The shutdown of a peer handle, if there is one. */
  function ShutdownOf(peer: Option<QuorumPeer>): seq<Effect>
  {
    if peer.Some? then [Shutdown(peer.value)] else []
  }

  /** Deleting each path in turn. */
  function Deletes(paths: seq<Path>): seq<Effect>
  {
    seq(|paths|, k requires 0 <= k < |paths| => Delete(paths[k]))
  }

  /** Reports and deletions do not start or stop a peer. */
  lemma {:induction false} LivePeerAfterOthers(effects: seq<Effect>, more: seq<Effect>)
    requires forall k :: 0 <= k < |more| ==> more[k].Report? || more[k].Delete?
    ensures LivePeer(effects + more) == LivePeer(effects)
    decreases |more|
  {
    if |more| > 0 {
      var init := more[..|more| - 1];
      assert more[|more| - 1].Report? || more[|more| - 1].Delete?;
      assert (effects + more)[|effects + more| - 1] == more[|more| - 1];
      assert (effects + more)[..|effects + more| - 1] == effects + init;
      LivePeerAfterOthers(effects, init);
    } else {
      assert effects + more == effects;
    }
  }

  /** Shutting down the handle that is live, or any handle when none is, leaves no peer live. */
  lemma ShutdownEndsLivePeer(effects: seq<Effect>, peer: Option<QuorumPeer>)
    requires LivePeer(effects).Some? ==> LivePeer(effects) == peer
    ensures LivePeer(effects + ShutdownOf(peer)).None?
  {
    if peer.Some? {
      var e := effects + ShutdownOf(peer);
      assert e[|e| - 1] == Shutdown(peer.value);
    } else {
      assert effects + ShutdownOf(peer) == effects;
    }
  }

  class QuorumPeerInstance {
    var serverId: int
    var clientAddr: Option<Address>
    var quorumAddr: Option<Address>
    var peers: Option<map<int, QuorumServer>>
    var peer: Option<QuorumPeer>
    /** The working directory's name, fixed at construction. */
    const dir: string
    /** Everything reported, launched, shut down and deleted so far. */
    var effects: seq<Effect>

    /**
     * A peer handle belongs to a configured agent, was launched by it with
     * its own client port, id and directory, and is the live peer whenever
     * one is live.
     */
    ghost predicate Valid()
      reads this
    {
      && (peer.Some? ==>
            && clientAddr.Some?
            && peer.value == NewPeer(peer.value.quorumPeers, dir, clientAddr.value.port, serverId)
            && Launch(peer.value) in effects)
      && (LivePeer(effects).Some? ==> LivePeer(effects) == peer)
    }

    /** A fresh agent: nothing configured, no peer, an empty working directory named `dir`. */
    constructor (dir: string)
      ensures Valid()
      ensures this.dir == dir && serverId == 0
      ensures clientAddr.None? && quorumAddr.None? && peers.None? && peer.None?
      ensures effects == []
    {
      this.dir := dir;
      serverId := 0;
      clientAddr, quorumAddr := None, None;
      peers, peer := None, None;
      effects := [];
    }

    /**
     * `configure(params)`. `pollRounds` is the number of readiness rounds
     * run, each worth half a second of waiting.
     */
    method Configure(params: string, env: Environment) returns (outcome: Outcome, ghost pollRounds: nat)
      requires Valid()
      requires |env.probes| >= PollAttempts
      modifies this
      ensures Valid()
      ensures pollRounds <= PollAttempts
      // The first call is the one made while no client address is set.
      ensures old(clientAddr).None? ==>
        && peer == old(peer) && peers == old(peers) && pollRounds == 0
        && (ParseInt(params).None? ==>
              && outcome == Threw(NumberFormat)
              && serverId == old(serverId) && clientAddr == old(clientAddr) && quorumAddr == old(quorumAddr)
              && effects == old(effects))
        && (ParseInt(params).Some? ==>
              && serverId == ParseInt(params).value
              && clientAddr == env.clientSocket
              && quorumAddr == (if env.quorumSocket.Some? then env.quorumSocket else old(quorumAddr))
              && if clientAddr.Some? && quorumAddr.Some? then
                   && outcome == Returned
                   && effects == old(effects) + [Report(AddressReport(clientAddr.value, quorumAddr.value))]
                 else
                   && outcome == Threw(NullPointer)
                   && effects == old(effects))
      // Once set, the addresses and the id stay as they are.
      ensures old(clientAddr).Some? ==>
        clientAddr == old(clientAddr) && quorumAddr == old(quorumAddr) && serverId == old(serverId)
      // A later call without a space changes nothing.
      ensures old(clientAddr).Some? && SplitCommand(params).None? ==>
        && outcome == Returned && pollRounds == 0
        && peer == old(peer) && peers == old(peers) && effects == old(effects)
      // Any command but `start` stops, running or not, and always reports.
      ensures old(clientAddr).Some? && SplitCommand(params).Some? && SplitCommand(params).value.1 != StartCommand ==>
        && outcome == Returned && 1 <= pollRounds
        && peer.None? && peers == old(peers)
        && effects == old(effects) + ShutdownOf(old(peer)) + [Report(StoppedReport)]
      // `start` first rebuilds the peer map from the spec, then starts a peer unless one is there.
      ensures old(clientAddr).Some? && SplitCommand(params).Some? && SplitCommand(params).value.1 == StartCommand ==>
        var parsed := ParsePeerSpec(SplitCommand(params).value.0);
        && peers == Some(parsed.peers)
        && (parsed.Failed? ==>
              outcome == Threw(parsed.error) && pollRounds == 0 && peer == old(peer) && effects == old(effects))
        && (parsed.Parsed? && old(peer).Some? ==>
              outcome == Returned && pollRounds == 0 && peer == old(peer) && effects == old(effects))
        && (parsed.Parsed? && old(peer).None? ==>
              && outcome == Returned && 1 <= pollRounds
              && peer == Some(NewPeer(parsed.peers, dir, clientAddr.value.port, serverId))
              && effects == old(effects) + [Launch(peer.value), Report(StartedReport)])
    {
      pollRounds := 0;
      if clientAddr.None? {
        outcome := AssignIdentity(params, env);
        return;
      }
      var split := SplitCommand(params);
      if split.None? {
        // a warning is logged
        outcome := Returned;
        return;
      }
      var quorumSpecs, cmd := split.value.0, split.value.1;
      if cmd != StartCommand {
        pollRounds := StopPeer(env.probes);
        outcome := Returned;
        return;
      }
      var failure := BuildPeers(quorumSpecs);
      if failure.Some? {
        outcome := Threw(failure.value);
        return;
      }
      pollRounds := StartPeer(env.probes);
      outcome := Returned;
    }

    /** The first call: parse the id, take the two reserved addresses, report them. */
    method AssignIdentity(params: string, env: Environment) returns (outcome: Outcome)
      requires Valid() && clientAddr.None?
      modifies this`serverId, this`clientAddr, this`quorumAddr, this`effects
      ensures Valid()
      ensures ParseInt(params).None? ==>
        && outcome == Threw(NumberFormat)
        && serverId == old(serverId) && clientAddr == old(clientAddr) && quorumAddr == old(quorumAddr)
        && effects == old(effects)
      ensures ParseInt(params).Some? ==>
        && serverId == ParseInt(params).value
        && clientAddr == env.clientSocket
        && quorumAddr == (if env.quorumSocket.Some? then env.quorumSocket else old(quorumAddr))
        && if clientAddr.Some? && quorumAddr.Some? then
             && outcome == Returned
             && effects == old(effects) + [Report(AddressReport(clientAddr.value, quorumAddr.value))]
           else
             && outcome == Threw(NullPointer)
             && effects == old(effects)
    {
      var id := ParseInt(params);
      if id.None? {
        outcome := Threw(NumberFormat);
        return;
      }
      serverId := id.value;
      if env.clientSocket.Some? {
        clientAddr := env.clientSocket;
      }
      if env.quorumSocket.Some? {
        quorumAddr := env.quorumSocket;
      }
      if clientAddr.None? || quorumAddr.None? {
        // getHostName() on a null address
        outcome := Threw(NullPointer);
        return;
      }
      var report := AddressReport(clientAddr.value, quorumAddr.value);
      LivePeerAfterOthers(effects, [Report(report)]);
      effects := effects + [Report(report)];
      outcome := Returned;
    }

    /** The stop path: shut down and drop the peer if there is one, wait, report `stopped`. */
    method StopPeer(probes: seq<bool>) returns (ghost rounds: nat)
      requires Valid() && clientAddr.Some?
      requires |probes| >= PollAttempts
      modifies this`peer, this`effects
      ensures Valid()
      ensures 1 <= rounds <= PollAttempts
      ensures peer.None?
      ensures effects == old(effects) + ShutdownOf(old(peer)) + [Report(StoppedReport)]
    {
      ShutdownEndsLivePeer(effects, peer);
      effects := effects + ShutdownOf(peer);
      peer := None;
      rounds := Poll(probes, false);
      LivePeerAfterOthers(effects, [Report(StoppedReport)]);
      effects := effects + [Report(StoppedReport)];
    }

    /**
     * Replaces `peers` with a new map filled entry by entry from the spec.
     * An entry that does not parse ends the call with its exception, and
     * `peers` keeps the entries filled in before it.
     */
    method BuildPeers(quorumSpecs: string) returns (failure: Option<JavaException>)
      modifies this`peers
      ensures peers == Some(ParsePeerSpec(quorumSpecs).peers)
      ensures failure.Some? <==> ParsePeerSpec(quorumSpecs).Failed?
      ensures failure.Some? ==> failure.value == ParsePeerSpec(quorumSpecs).error
    {
      var parts := Split(quorumSpecs, ',');
      ghost var entries := Entries(parts);
      peers := Some(map[]);
      var i := 0;
      while i < |parts|
        invariant 0 <= i <= |parts|
        invariant peers.Some? && Collect(entries[..i]) == Parsed(peers.value)
      {
        var subparts := Split(parts[i], ':');
        if |subparts| < 2 {
          CollectStopsAt(entries, i);
          return Some(IndexOutOfBounds);
        }
        var port := ParseInt(subparts[1]);
        if port.None? {
          CollectStopsAt(entries, i);
          return Some(NumberFormat);
        }
        if !(0 <= port.value <= MaxPort) {
          CollectStopsAt(entries, i);
          return Some(IllegalArgument);
        }
        CollectStep(entries, i);
        peers := Some(peers.value[i := QuorumServer(i, Address(subparts[0], port.value))]);
        i := i + 1;
      }
      assert entries[..i] == entries;
      failure := None;
    }

    /** The start path after the peer map is built: unless a peer is there, launch one, wait, report `started`. */
    method StartPeer(probes: seq<bool>) returns (ghost rounds: nat)
      requires Valid() && clientAddr.Some? && peers.Some?
      requires |probes| >= PollAttempts
      modifies this`peer, this`effects
      ensures Valid()
      ensures old(peer).Some? ==> rounds == 0 && peer == old(peer) && effects == old(effects)
      ensures old(peer).None? ==>
        && 1 <= rounds <= PollAttempts
        && peer == Some(NewPeer(peers.value, dir, clientAddr.value.port, serverId))
        && effects == old(effects) + [Launch(peer.value), Report(StartedReport)]
    {
      rounds := 0;
      if peer.Some? {
        // "already started" is logged
        return;
      }
      peer := Some(NewPeer(peers.value, dir, clientAddr.value.port, serverId));
      effects := effects + [Launch(peer.value)];
      rounds := Poll(probes, true);
      LivePeerAfterOthers(effects, [Report(StartedReport)]);
      effects := effects + [Report(StartedReport)];
    }

    /**
     * `stop()`, the final teardown: shuts a present peer down, then deletes
     * the working directory tree, given as what is on disk at that moment.
     * The peer handle is left as it is.
     */
    method Stop(onDisk: Option<Node>)
      requires Valid()
      requires onDisk.Some? ==> onDisk.value.name == dir && WellFormed(onDisk.value)
      modifies this
      ensures Valid()
      ensures serverId == old(serverId) && clientAddr == old(clientAddr) && quorumAddr == old(quorumAddr)
      ensures peers == old(peers) && peer == old(peer)
      ensures effects == old(effects) + ShutdownOf(old(peer)) + Deletes(RecursiveDelete(dir, onDisk))
      // No peer is live while anything is deleted.
      ensures forall k :: |old(effects)| <= k < |effects| && effects[k].Delete? ==> LivePeer(effects[..k]).None?
    {
      ShutdownEndsLivePeer(effects, peer);
      effects := effects + ShutdownOf(peer);
      ghost var before := effects;
      assert LivePeer(before).None?;
      var deletions := Deletes(RecursiveDelete(dir, onDisk));
      forall k | 0 <= k <= |deletions|
        ensures LivePeer(before + deletions[..k]).None?
      {
        LivePeerAfterOthers(before, deletions[..k]);
      }
      LivePeerAfterOthers(before, deletions);
      effects := effects + deletions;
      forall k | |old(effects)| <= k < |effects| && effects[k].Delete?
        ensures LivePeer(effects[..k]).None?
      {
        if k >= |before| {
          assert effects[..k] == before + deletions[..k - |before|];
        }
      }
    }
  }

  /**
   * `createServer(i)`: the new agent's first configuration is `i` in
   * decimal, so it takes `i` as its id and reports its two addresses.
   */
  method CreateServer(agent: QuorumPeerInstance, i: int, env: Environment) returns (outcome: Outcome)
    requires agent.Valid() && agent.clientAddr.None?
    requires MinInt <= i <= MaxInt
    requires env.clientSocket.Some? && env.quorumSocket.Some?
    requires |env.probes| >= PollAttempts
    modifies agent
    ensures agent.Valid()
    ensures outcome == Returned
    ensures agent.serverId == i && agent.clientAddr == env.clientSocket && agent.quorumAddr == env.quorumSocket
    ensures agent.peer == old(agent.peer) && agent.peers == old(agent.peers)
    ensures agent.effects == old(agent.effects) + [Report(AddressReport(env.clientSocket.value, env.quorumSocket.value))]
  {
    ParseIntOfIntToString(i);
    ghost var rounds: nat;
    outcome, rounds := agent.Configure(IntToString(i), env);
  }

  /**
   * `startInstance(quorumHostPort, i)`: the agent is sent
   * `quorumHostPort + " start"`, rebuilds its peer map from
   * `quorumHostPort` and, with no peer running, launches one and reports
   * `started`.
   */
  method StartInstance(agent: QuorumPeerInstance, quorumHostPort: string, env: Environment) returns (outcome: Outcome)
    requires agent.Valid() && agent.clientAddr.Some? && agent.peer.None?
    requires ' ' !in quorumHostPort && ParsePeerSpec(quorumHostPort).Parsed?
    requires |env.probes| >= PollAttempts
    modifies agent
    ensures agent.Valid()
    ensures outcome == Returned
    ensures agent.serverId == old(agent.serverId) && agent.clientAddr == old(agent.clientAddr)
    ensures agent.quorumAddr == old(agent.quorumAddr)
    ensures agent.peers == Some(ParsePeerSpec(quorumHostPort).peers)
    ensures agent.peer == Some(NewPeer(ParsePeerSpec(quorumHostPort).peers, agent.dir, agent.clientAddr.value.port, agent.serverId))
    ensures agent.effects == old(agent.effects) + [Launch(agent.peer.value), Report(StartedReport)]
  {
    StartMessageStarts(quorumHostPort);
    ghost var rounds: nat;
    outcome, rounds := agent.Configure(StartMessage(quorumHostPort), env);
  }

  /**
   * `stopInstance(i)`: the agent is sent `i + " stop"`; the index only
   * fills the peer-spec position, which the stop path ignores. A running
   * peer is shut down and `stopped` is reported.
   */
  method StopInstance(agent: QuorumPeerInstance, i: int, env: Environment) returns (outcome: Outcome)
    requires agent.Valid() && agent.clientAddr.Some?
    requires |env.probes| >= PollAttempts
    modifies agent
    ensures agent.Valid()
    ensures outcome == Returned
    ensures agent.serverId == old(agent.serverId) && agent.clientAddr == old(agent.clientAddr)
    ensures agent.quorumAddr == old(agent.quorumAddr) && agent.peers == old(agent.peers)
    ensures agent.peer.None?
    ensures agent.effects == old(agent.effects) + ShutdownOf(old(agent.peer)) + [Report(StoppedReport)]
  {
    StopMessageStops(i);
    ghost var rounds: nat;
    outcome, rounds := agent.Configure(StopMessage(i), env);
  }

  /**
   * One server's life under the orchestration helpers: created as server
   * `i`, started with `quorumHostPort`, stopped, torn down. The agent
   * reports its addresses, `started` and `stopped`, launches and shuts down
   * one peer in between, and deletes its directory only after that.
   */
  method ServerLifecycle(dir: string, i: int, quorumHostPort: string, client: Address, quorum: Address,
                         probes: seq<bool>, onDisk: Option<Node>)
    returns (outcomes: seq<Outcome>, effects: seq<Effect>)
    requires MinInt <= i <= MaxInt
    requires ' ' !in quorumHostPort && ParsePeerSpec(quorumHostPort).Parsed?
    requires |probes| >= PollAttempts
    requires onDisk.Some? ==> onDisk.value.name == dir && WellFormed(onDisk.value)
    ensures outcomes == [Returned, Returned, Returned]
    ensures var started := NewPeer(ParsePeerSpec(quorumHostPort).peers, dir, client.port, i);
      effects == [Report(AddressReport(client, quorum)),
                  Launch(started), Report(StartedReport),
                  Shutdown(started), Report(StoppedReport)]
                 + Deletes(RecursiveDelete(dir, onDisk))
  {
    var agent := new QuorumPeerInstance(dir);
    var env := Environment(Some(client), Some(quorum), probes);
    var created := CreateServer(agent, i, env);
    assert agent.effects == [Report(AddressReport(client, quorum))];
    var started := StartInstance(agent, quorumHostPort, env);
    ghost var peer := NewPeer(ParsePeerSpec(quorumHostPort).peers, dir, client.port, i);
    assert agent.peer == Some(peer);
    assert agent.effects == [Report(AddressReport(client, quorum)), Launch(peer), Report(StartedReport)];
    var stopped := StopInstance(agent, i, env);
    assert agent.effects == [Report(AddressReport(client, quorum)), Launch(peer), Report(StartedReport),
                             Shutdown(peer), Report(StoppedReport)];
    agent.Stop(onDisk);
    outcomes := [created, started, stopped];
    effects := agent.effects;
  }
}
