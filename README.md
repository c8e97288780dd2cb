# QuorumPeerInstance, modelled in Dafny

`QuorumPeerInstance` is the system-test agent that drives one ZooKeeper quorum
peer for a central test manager. The manager configures it with strings:

- The first string is the agent's server id. The agent reserves a client
  address and a quorum address and reports `host:port,host:port`.
- Every later string is `"<peer spec> <command>"`.
  - `start` rebuilds the map of quorum servers from the peer spec (entry
    `i` of the comma-separated `host:port` list becomes server `i`). If no
    peer is there, it then launches one, polls the client port and reports
    `started`; otherwise it only logs a warning and returns.
  - Any other command shuts the peer down if there is one, polls the client
    port, and reports `stopped`.
- `stop()` is the final teardown: it shuts a present peer down and deletes
  the working directory recursively, children before parents.

The project is split into these files:

- `wrappers.dfy`: `Option` and `Result`.
- `java_strings.dfy` (module `JavaStrings`): the Java string operations the
  protocol relies on. These are `indexOf`, `split` with a one-character
  separator (trailing empty strings dropped), `Integer.parseInt` (optional
  sign, decimal digits, 32-bit range) and decimal printing of an `int`.
- `peer_spec.dfy` (module `PeerSpec`): the protocol's text formats.
  - The command split at the first space.
  - The per-entry parse `host:port` → `QuorumServer`, with the exception each
    step can raise.
  - The loop that fills the peer map and stops at the first exception.
  - The address report and the messages the orchestration helpers send.
- `polling.dfy` (module `Polling`): the bounded readiness poll. It runs at
  most five rounds and leaves early on the awaited connect outcome.
- `work_dir.dfy` (module `WorkDir`): the working directory as a tree and
  `recursiveDelete` as the sequence of paths it deletes.
- `quorum_peer_instance.dfy` (module `Instance`): the class
  `QuorumPeerInstance` with the source's fields, and the orchestration
  helpers.
  - `configure` is split along its branches: first call, stop path, peer-map
    loop and start path.
  - External effects go into one ordered log, `effects`. The log records
    reports, peer launches, peer shutdowns and file deletions.

Exceptions that escape `configure` are part of the model: `Configure` returns
`Threw(e)`. This covers a malformed id, a malformed peer entry, a port out of
range and a null address. Sockets, sleeps, the consensus engine and the
reporter are replaced by inputs (an `Environment` holding the reserved
addresses and the outcome of each connect attempt) or by entries in the
effect log.

### Behaviour of the code worth knowing

- If reserving an address fails, the address stays null and line 88 throws
  a `NullPointerException` out of `configure`, so no report is sent.
  - If the client address failed, the next call is treated as a first call
    again. An earlier quorum address is kept when such a retry fails to
    reserve a new one.
  - If only the quorum address failed, later calls are treated as commands.
- The peer spec is parsed (lines 129-134) before the double-start check (lines
  139-142). So a refused second start has still replaced `peers`.
- A malformed peer entry throws out of `configure`, because line 133 is
  outside the `try`. At that point `peers` holds the entries before the bad
  one.
- `stop()` (lines 175-183) shuts the peer down but does not set `peer` to
  null. A later `start` would therefore be refused as a double start.

## Model

| member | source | states |
|---|---|---|
| `JavaStrings.IndexOf` | src/java/systest/org/apache/zookeeper/test/system/QuorumPeerInstance.java:100 | -1 exactly when the character is absent; otherwise the position of its first occurrence |
| `JavaStrings.Split` | src/java/systest/org/apache/zookeeper/test/system/QuorumPeerInstance.java:129-132 | `String.split` with a one-character separator and limit 0: `[s]` when the separator is absent, otherwise the pieces between separators minus trailing empty ones; `SplitMeaning` and `SplitOfJoin` prove what it returns |
| `JavaStrings.SplitAll` | src/java/systest/org/apache/zookeeper/test/system/QuorumPeerInstance.java:129 | the pieces between separators: none holds the separator, and joining them back with it gives the input |
| `JavaStrings.StripTrailingEmpty` | src/java/systest/org/apache/zookeeper/test/system/QuorumPeerInstance.java:129 | a prefix of the pieces whose last element is non-empty, and every piece dropped is empty (Java's `split` with limit 0) |
| `JavaStrings.SplitAllOfJoin` | src/java/systest/org/apache/zookeeper/test/system/QuorumPeerInstance.java:129 | splitting undoes joining pieces that do not hold the separator |
| `JavaStrings.SplitOfJoin` | src/java/systest/org/apache/zookeeper/test/system/QuorumPeerInstance.java:132 | `split` gives back the joined pieces when none holds the separator and the last one is not empty |
| `JavaStrings.SplitMeaning` | src/java/systest/org/apache/zookeeper/test/system/QuorumPeerInstance.java:129-132 | no piece `split` returns holds the separator, and every non-empty piece between separators is kept at its position (the other two clauses spell out the definition: `[s]` without a separator, else the pieces minus trailing empty ones) |
| `JavaStrings.IntToString` | src/java/systest/org/apache/zookeeper/test/system/QuorumPeerInstance.java:88-89 | `Integer.toString`: a `-` for a negative number, then the decimal digits of its magnitude (`NatDigits`); `ParseIntOfIntToString` proves that `parseInt` reads it back and `IntToStringHasNoSeparator` that it holds no protocol separator |
| `JavaStrings.NatDigits` | src/java/systest/org/apache/zookeeper/test/system/QuorumPeerInstance.java:88-89 | the printed port is a non-empty string of decimal digits without a leading zero |
| `JavaStrings.ParseInt` | src/java/systest/org/apache/zookeeper/test/system/QuorumPeerInstance.java:69 | a parsed value always fits in a Java `int`, and the empty string never parses |
| `JavaStrings.DigitsOfNat` | src/java/systest/org/apache/zookeeper/test/system/QuorumPeerInstance.java:88-89 | reading back the decimal digits of a number gives the number |
| `JavaStrings.ParseIntOfIntToString` | src/java/systest/org/apache/zookeeper/test/system/QuorumPeerInstance.java:196 | `Integer.parseInt(Integer.toString(i)) == i` for every `int`, so the id `createServer` sends is the id the agent takes |
| `JavaStrings.IntToStringHasNoSeparator` | src/java/systest/org/apache/zookeeper/test/system/QuorumPeerInstance.java:226 | a printed number holds no space, comma or colon |
| `PeerSpec.HostPort` | src/java/systest/org/apache/zookeeper/test/system/QuorumPeerInstance.java:88-89 | one address printed as `host:port`; `HostPortParses` proves it parses back as a peer entry |
| `PeerSpec.AddressReport` | src/java/systest/org/apache/zookeeper/test/system/QuorumPeerInstance.java:88-89 | the first call's report `clientHost:clientPort,quorumHost:quorumPort`; `AddressReportIsJoin` and `AddressReportAsPeerSpec` prove it is a peer spec naming the client address as server 0 and the quorum address as server 1 |
| `PeerSpec.StartMessage` | src/java/systest/org/apache/zookeeper/test/system/QuorumPeerInstance.java:212 | the message `startInstance` sends, `quorumHostPort + " start"`; `StartMessageStarts` proves it takes the start path with the peer spec intact |
| `PeerSpec.StopMessage` | src/java/systest/org/apache/zookeeper/test/system/QuorumPeerInstance.java:226 | the message `stopInstance` sends, `index + " stop"`; `StopMessageStops` proves it takes the stop path |
| `PeerSpec.SplitCommand` | src/java/systest/org/apache/zookeeper/test/system/QuorumPeerInstance.java:100-106 | `None` exactly when there is no space; otherwise `params == spec + " " + cmd` with no space in `spec` (the split is at the first space) |
| `PeerSpec.CommandOfMessage` | src/java/systest/org/apache/zookeeper/test/system/QuorumPeerInstance.java:100-106 | `spec + " " + cmd` splits back into `spec` and `cmd` whenever `spec` has no space, whatever `cmd` holds |
| `PeerSpec.StartMessageStarts` | src/java/systest/org/apache/zookeeper/test/system/QuorumPeerInstance.java:212 | the message `quorumHostPort + " start"` splits into `quorumHostPort` and `start` when `quorumHostPort` has no space |
| `PeerSpec.StopMessageStops` | src/java/systest/org/apache/zookeeper/test/system/QuorumPeerInstance.java:226 | the message `index + " stop"` always splits, and its command is not `start`, so it takes the stop path |
| `PeerSpec.ParsePart` | src/java/systest/org/apache/zookeeper/test/system/QuorumPeerInstance.java:132-133 | a parsed entry carries the id it was given and a port in 0..65535 |
| `PeerSpec.ParsePartMeaning` | src/java/systest/org/apache/zookeeper/test/system/QuorumPeerInstance.java:132-133 | an entry parses exactly when it has a `:` and the field after it (up to a next `:`) is an integer in port range; the host is then the text before the first `:` |
| `PeerSpec.Collect` | src/java/systest/org/apache/zookeeper/test/system/QuorumPeerInstance.java:130-134 | the loop over the parsed entries: the map of the entries so far, ending at the first failing entry with its exception; `CollectParsed`, `CollectFailed`, `CollectStep` and `CollectStopsAt` prove its meaning, and `BuildPeers`' loop is proved equal to it |
| `PeerSpec.ParsePeerSpec` | src/java/systest/org/apache/zookeeper/test/system/QuorumPeerInstance.java:129-134 | `quorumSpecs.split(",")` followed by the loop, entry `k` parsed with id `k`; `ParsedPeerSpec` and `PeerSpecOfAddresses` prove what it gives |
| `PeerSpec.CollectStep` | src/java/systest/org/apache/zookeeper/test/system/QuorumPeerInstance.java:131-134 | one more entry that parses adds its server under its position to the map built so far |
| `PeerSpec.CollectStopsAt` | src/java/systest/org/apache/zookeeper/test/system/QuorumPeerInstance.java:131-134 | the first entry that fails ends the loop with that entry's exception and the map of the entries before it |
| `PeerSpec.CollectParsed` | src/java/systest/org/apache/zookeeper/test/system/QuorumPeerInstance.java:130-134 | the loop completes exactly when every entry parses; the map then has keys `0..n-1` and key `k` holds entry `k`'s server |
| `PeerSpec.CollectFailed` | src/java/systest/org/apache/zookeeper/test/system/QuorumPeerInstance.java:130-134 | a loop that stops early leaves the map of exactly the entries before the first failing one, and raises that entry's exception |
| `PeerSpec.ParsedEntries` | src/java/systest/org/apache/zookeeper/test/system/QuorumPeerInstance.java:130-134 | the loop over a list of entries completes exactly when every entry parses with its position as id; the map then has keys `0..n-1` and key `k` holds entry `k`'s server, with id `k` |
| `PeerSpec.ParsedPeerSpec` | src/java/systest/org/apache/zookeeper/test/system/QuorumPeerInstance.java:129-134 | a peer spec parses exactly when each comma-separated part does; the map is fresh, with one entry per part, key `k` and id `k` |
| `PeerSpec.HostPortParses` | src/java/systest/org/apache/zookeeper/test/system/QuorumPeerInstance.java:133 | `host:port` parses into that host and port for a printable address |
| `PeerSpec.EntriesOfAddresses` | src/java/systest/org/apache/zookeeper/test/system/QuorumPeerInstance.java:131-133 | each `host:port` entry of a list of printable addresses parses into the server at its position |
| `PeerSpec.SplitJoinedAddresses` | src/java/systest/org/apache/zookeeper/test/system/QuorumPeerInstance.java:129 | a comma-joined list of `host:port` entries splits back into those entries |
| `PeerSpec.CollectServers` | src/java/systest/org/apache/zookeeper/test/system/QuorumPeerInstance.java:130-134 | when entry `k` parses into server `k` at the `k`-th address for every `k`, the loop ends with exactly the map from each position to that server |
| `PeerSpec.PeerSpecOfAddresses` | src/java/systest/org/apache/zookeeper/test/system/QuorumPeerInstance.java:129-134 | a peer spec built from a list of printable addresses parses into the map from each position `k` to server `k` at the `k`-th address |
| `PeerSpec.AddressReportIsJoin` | src/java/systest/org/apache/zookeeper/test/system/QuorumPeerInstance.java:88-89 | the first call's report is the peer spec of the list [client address, quorum address] |
| `PeerSpec.AddressReportAsPeerSpec` | src/java/systest/org/apache/zookeeper/test/system/QuorumPeerInstance.java:88-89 | the first call's report, read back as a peer spec, gives server 0 at the client address and server 1 at the quorum address |
| `Polling.Poll` | src/java/systest/org/apache/zookeeper/test/system/QuorumPeerInstance.java:116-122 | between 1 and 5 rounds; every round before the last saw the wrong outcome, and stopping before round 5 means the last round saw the awaited one (the same loop is at lines 145-152 with the other outcome awaited) |
| `WorkDir.DeleteOrder` | src/java/systest/org/apache/zookeeper/test/system/QuorumPeerInstance.java:164-173 | `recursiveDelete` on a tree as the sequence of paths it deletes: a file is deleted at once, a directory after all its entries in order; `DeleteOrderMembers`, `DeleteOrderUnder` and `DeleteOrderOnce` prove which paths and in what order |
| `WorkDir.DeleteAll` | src/java/systest/org/apache/zookeeper/test/system/QuorumPeerInstance.java:169-171 | the loop over a directory's entries, each deleted recursively in turn; `DeleteAllMembers`, `DeleteAllUnder` and `DeleteAllOnce` prove its meaning |
| `WorkDir.RecursiveDelete` | src/java/systest/org/apache/zookeeper/test/system/QuorumPeerInstance.java:164-168 | `recursiveDelete(dir)` on what is on disk: only the path itself when there is no directory there, otherwise the post-order of the tree; `RecursiveDeleteMeaning` proves every path is deleted once, children first, the directory last |
| `WorkDir.DeleteAllMembers` | src/java/systest/org/apache/zookeeper/test/system/QuorumPeerInstance.java:169-171 | the loop over a directory's entries deletes exactly what the entries' own deletions do |
| `WorkDir.DeleteOrderMembers` | src/java/systest/org/apache/zookeeper/test/system/QuorumPeerInstance.java:164-173 | `recursiveDelete` deletes exactly the paths of the tree |
| `WorkDir.DeleteOrderUnder` | src/java/systest/org/apache/zookeeper/test/system/QuorumPeerInstance.java:164-173 | everything deleted for a node lies at or below that node's own path |
| `WorkDir.DeleteAllUnder` | src/java/systest/org/apache/zookeeper/test/system/QuorumPeerInstance.java:169-171 | everything deleted for a directory's entries lies strictly below the directory |
| `WorkDir.SiblingsApart` | src/java/systest/org/apache/zookeeper/test/system/QuorumPeerInstance.java:169-171 | two differently named entries never delete the same path, and neither deletes an ancestor of the other's paths |
| `WorkDir.DeleteAllOnce` | src/java/systest/org/apache/zookeeper/test/system/QuorumPeerInstance.java:169-171 | the entries of a directory with distinct names are deleted once each, children first |
| `WorkDir.DeleteOrderOnce` | src/java/systest/org/apache/zookeeper/test/system/QuorumPeerInstance.java:164-173 | in a tree with distinct sibling names every path is deleted exactly once, and whatever lies below a directory is deleted before it |
| `WorkDir.RecursiveDeleteMeaning` | src/java/systest/org/apache/zookeeper/test/system/QuorumPeerInstance.java:182 | deleting the working directory deletes every path in it exactly once, children first, the directory itself last; with no directory on disk only its path is deleted |
| `Instance.NewPeer` | src/java/systest/org/apache/zookeeper/test/system/QuorumPeerInstance.java:143 | the arguments `new QuorumPeer(peers, dir, dir, clientPort, 0, serverId, tickTime, initLimit, syncLimit)` is constructed with; `QuorumPeerInstance.Valid` keeps every launched peer equal to it for the agent's directory, client port and id |
| `Instance.LivePeerAfterOthers` | src/java/systest/org/apache/zookeeper/test/system/QuorumPeerInstance.java:94 | reports and deletions do not change which peer is live |
| `Instance.ShutdownEndsLivePeer` | src/java/systest/org/apache/zookeeper/test/system/QuorumPeerInstance.java:111-114 | shutting down the handle leaves no peer live |
| `Instance.QuorumPeerInstance.constructor` | src/java/systest/org/apache/zookeeper/test/system/QuorumPeerInstance.java:54-62 | a new agent has no addresses, no peer map, no peer, id 0 and no effects yet |
| `Instance.QuorumPeerInstance.Configure` | src/java/systest/org/apache/zookeeper/test/system/QuorumPeerInstance.java:65-158 | the first-call branch is taken exactly while the client address is unset, and once set the addresses and id never change; a later call without a space changes nothing; any command but `start` leaves no peer, keeps `peers`, and reports `stopped` after a shutdown of the old peer if there was one; `start` replaces `peers` by the freshly parsed map (the partial map on an exception), then with no peer launches one and reports `started`, and with a peer does nothing more; at most 5 poll rounds, whatever the probes say |
| `Instance.QuorumPeerInstance.AssignIdentity` | src/java/systest/org/apache/zookeeper/test/system/QuorumPeerInstance.java:66-98 | a bad id throws and changes nothing; otherwise the id and the reserved addresses are set, and the report is exactly `clientHost:clientPort,quorumHost:quorumPort`, or a null address throws and nothing is reported |
| `Instance.QuorumPeerInstance.StopPeer` | src/java/systest/org/apache/zookeeper/test/system/QuorumPeerInstance.java:110-127 | the peer is shut down if present and cleared, and `stopped` is reported whether or not one was running |
| `Instance.QuorumPeerInstance.BuildPeers` | src/java/systest/org/apache/zookeeper/test/system/QuorumPeerInstance.java:129-134 | `peers` becomes the map parsed from the spec, built fresh; an exception is returned exactly when an entry fails, and the map then holds the entries before it |
| `Instance.QuorumPeerInstance.StartPeer` | src/java/systest/org/apache/zookeeper/test/system/QuorumPeerInstance.java:135-156 | with a peer present nothing happens; otherwise a peer with the agent's map, client port, id, directory and the fixed timing constants is launched and `started` is reported |
| `Instance.QuorumPeerInstance.Stop` | src/java/systest/org/apache/zookeeper/test/system/QuorumPeerInstance.java:175-183 | a present peer is shut down, then the agent's directory as found on disk is deleted with no peer live, in the order `recursiveDelete` takes (children first, each path once, the directory last); the peer handle itself is not cleared |
| `Instance.CreateServer` | src/java/systest/org/apache/zookeeper/test/system/QuorumPeerInstance.java:195-199 | configuring a new agent with `i` in decimal gives it id `i` and makes it report its two addresses |
| `Instance.StartInstance` | src/java/systest/org/apache/zookeeper/test/system/QuorumPeerInstance.java:210-214 | the start message makes an idle agent take the sent peer map, launch a peer and report `started` |
| `Instance.StopInstance` | src/java/systest/org/apache/zookeeper/test/system/QuorumPeerInstance.java:224-229 | the stop message makes the agent drop its peer and report `stopped` |
| `Instance.ServerLifecycle` | src/java/systest/org/apache/zookeeper/test/system/QuorumPeerInstance.java:195-229 | create, start, stop and teardown produce exactly: the address report, launch, `started`, shutdown of that same peer, `stopped`, then the directory's deletions |

## Left out

- Port reservation (lines 75-86) is operating-system I/O. The two addresses
  are inputs to the first call; `None` stands for an `IOException`.
- `InetSocketAddress.getHostName()` may do a reverse lookup. The model takes
  the host name as given.
- Socket connect probes and `Thread.sleep` (lines 116-122, 145-152) are
  replaced by a sequence of connect outcomes. The model requires at least
  five of them. Timing is not modelled.
- The consensus engine is not part of this model. `QuorumPeer` is recorded
  as the arguments it is constructed with. Its constructor, `start()` and
  `shutdown()` are assumed to return normally. Together with the next item,
  this means the catch at lines 154-155 is never reached.
- Reporter failures are not modelled: the report at line 94 (caught at
  95-96), at line 123 and at line 153. An interrupted sleep is not modelled
  either: line 117 (caught at 124-125) and line 146 (caught at 154-155). Every report the code reaches is recorded.
- Logging and exception printing are left out.
- `File.createTempFile`, `delete` and `mkdir` in the constructor (lines
  54-62) are not modelled, nor is their failure. The constructor takes the
  directory name.
- The directory contents at teardown are an input, because the consensus
  peer writes into the directory. Deletion is recorded as attempted.
  `File.delete()` failures and `listFiles()` returning null are not modelled.
- The `InstanceManager` calls in the helpers are not modelled: assignment,
  status reset and status waiting with timeouts (lines 196-197, 211-213,
  225-227). Each helper is modelled by the `configure` call it causes.
- `setReporter` (lines 45-47) is modelled by the effect log. `start()`
  (lines 160-162) has an empty body.
- `JavaStrings.ParseInt`: accepts ASCII digits only. `Integer.parseInt` also
  accepts other Unicode decimal digits. The model also accepts a leading `+`,
  as Java 7 and later do; Java 6 rejects it. The protocol never sends a `+`.
- `JavaStrings.Split`: models only `String.split` with a one-character
  separator that is not a regular-expression metacharacter. The code only
  splits on `,` and `:`.
- `Instance.QuorumPeerInstance.Configure`: for polling, states only the
  bound on rounds. `Polling.Poll` states the exact round at which each poll
  stops.
