/**
 * The text formats of the agent's configuration protocol: the address report
 * of the first call, the `"<peer spec> <command>"` form of every later call,
 * and the peer spec itself, a comma-separated list of `host:port` entries
 * that becomes the map of quorum servers handed to the consensus peer.
 */
module PeerSpec {
  import opened Wrappers
  import opened JavaStrings

  /** Largest TCP port; `InetSocketAddress` refuses anything outside 0..MaxPort. */
  const MaxPort: int := 0xFFFF

  /** The command word that selects the start path; every other word stops. */
  const StartCommand: string := "start"

  /** An `InetSocketAddress` as far as the agent uses it: host name and port. */
  datatype Address = Address(host: string, port: int)

  /** A `QuorumServer`: a peer id and that peer's quorum address. */
  datatype QuorumServer = QuorumServer(id: int, addr: Address)

  /** The Java exceptions that can escape `configure`. */
  datatype JavaException =
    | NumberFormat          // Integer.parseInt on a malformed number
    | IndexOutOfBounds      // a peer entry without a `:port` part
    | IllegalArgument       // InetSocketAddress with a port outside 0..MaxPort
    | NullPointer           // an address that could not be reserved

  /** `host:port`, the form in which addresses travel in reports and peer specs. */
  function HostPort(a: Address): string
  {
    a.host + ":" + IntToString(a.port)
  }

  /** The first call's report: `clientHost:clientPort,quorumHost:quorumPort`. */
  function AddressReport(client: Address, quorum: Address): string
  {
    HostPort(client) + "," + HostPort(quorum)
  }

  /** The peer spec a test builds from a list of quorum addresses, in id order. */
  function JoinAddresses(addrs: seq<Address>): string
    requires |addrs| >= 1
  {
    Join(HostPorts(addrs), ',')
  }

  /** The `host:port` entry of each address, in order. */
  function HostPorts(addrs: seq<Address>): seq<string>
  {
    seq(|addrs|, k requires 0 <= k < |addrs| => HostPort(addrs[k]))
  }

  /** An address that survives the trip through a peer spec. */
  predicate Printable(a: Address)
  {
    ',' !in a.host && ':' !in a.host && 0 <= a.port <= MaxPort
  }

  // ---------------------------------------------------------------------
  // "<peer spec> <command>"

  /**
   * Splits a later call's parameter at its first space into the peer spec
   * and the command; `None` when there is no space at all.
   */
  function SplitCommand(params: string): (r: Option<(string, string)>)
    ensures r.None? <==> ' ' !in params
    ensures r.Some? ==> params == r.value.0 + " " + r.value.1 && ' ' !in r.value.0
  {
    var k := IndexOf(params, ' ');
    if k == -1 then None
    else
      assert params == params[..k] + " " + params[k + 1..];
      Some((params[..k], params[k + 1..]))
  }

  /** The message `startInstance` sends: the peer spec followed by ` start`. */
  function StartMessage(quorumHostPort: string): string
  {
    quorumHostPort + " start"
  }

  /** The message `stopInstance` sends: the instance index followed by ` stop`. */
  function StopMessage(index: int): string
  {
    IntToString(index) + " stop"
  }

  /** A message built as `spec + " " + cmd` splits back into `spec` and `cmd` when `spec` has no space. */
  lemma CommandOfMessage(spec: string, cmd: string)
    requires ' ' !in spec
    ensures SplitCommand(spec + " " + cmd) == Some((spec, cmd))
  {
    var s := spec + " " + cmd;
    var k := IndexOf(s, ' ');
    assert s[|spec|] == ' ';
    assert s[..k] == spec;
    assert s[k + 1..] == cmd;
  }

  /** What `startInstance` sends reaches the start path with its peer spec intact. */
  lemma StartMessageStarts(quorumHostPort: string)
    requires ' ' !in quorumHostPort
    ensures SplitCommand(StartMessage(quorumHostPort)) == Some((quorumHostPort, StartCommand))
  {
    assert StartMessage(quorumHostPort) == quorumHostPort + " " + StartCommand;
    CommandOfMessage(quorumHostPort, StartCommand);
  }

  /** What `stopInstance` sends reaches the stop path: its command is `stop`, not `start`. */
  lemma StopMessageStops(index: int)
    ensures SplitCommand(StopMessage(index)).Some?
    ensures SplitCommand(StopMessage(index)).value.1 != StartCommand
  {
    IntToStringHasNoSeparator(index, ' ');
    CommandOfMessage(IntToString(index), "stop");
  }

  // ---------------------------------------------------------------------
  // Peer specs

  /**
   * One peer entry with the id given by its position: the entry is split
   * on `:`, the first field is the host and the second is parsed as the
   * port. Each step can throw: a missing second field, a port that is not
   * an integer, and an integer outside the port range.
   */
  function ParsePart(part: string, id: int): (r: Result<QuorumServer, JavaException>)
    ensures r.Success? ==> r.value.id == id && 0 <= r.value.addr.port <= MaxPort
  {
    var sub := Split(part, ':');
    if |sub| < 2 then Failure(IndexOutOfBounds)
    else
      match ParseInt(sub[1])
      case None => Failure(NumberFormat)
      case Some(port) =>
        if 0 <= port <= MaxPort then Success(QuorumServer(id, Address(sub[0], port)))
        else Failure(IllegalArgument)
  }

  /** The text before the first `:` of an entry. */
  function HostField(part: string): string
    requires ':' in part
  {
    part[..IndexOf(part, ':')]
  }

  /** The text after the first `:` of an entry, up to the next `:` if there is one. */
  function PortField(part: string): string
    requires ':' in part
  {
    var rest := part[IndexOf(part, ':') + 1..];
    if ':' in rest then rest[..IndexOf(rest, ':')] else rest
  }

  /**
   * An entry parses exactly when it has a `:` and the field after it is a
   * number in port range; the host is then the text before the first `:`
   * and the peer gets the id it was given.
   */
  lemma ParsePartMeaning(part: string, id: int)
    ensures ParsePart(part, id).Success? <==>
      ':' in part && ParseInt(PortField(part)).Some? && 0 <= ParseInt(PortField(part)).value <= MaxPort
    ensures ParsePart(part, id).Success? ==>
      ParsePart(part, id).value == QuorumServer(id, Address(HostField(part), ParseInt(PortField(part)).value))
  {
    SplitMeaning(part, ':');
    if ':' in part {
      var k := IndexOf(part, ':');
      var rest := part[k + 1..];
      var all := SplitAll(part, ':');
      assert all == [part[..k]] + SplitAll(rest, ':');
      if ':' !in rest {
        assert SplitAll(rest, ':') == [rest];
      }
      assert all[0] == HostField(part);
      assert all[1] == PortField(part);
    }
  }

  /** The outcome of the loop that fills `peers`: the whole map, or the map so far and the exception. */
  datatype PeerParse =
    | Parsed(peers: map<int, QuorumServer>)
    | Failed(peers: map<int, QuorumServer>, error: JavaException)

  /**
   * The loop over the entries: entry `i`'s server goes under key `i` of a
   * map that starts out empty, and the first exception stops the loop with
   * the map as it is at that point.
   */
  function Collect(entries: seq<Result<QuorumServer, JavaException>>): PeerParse
    decreases |entries|
  {
    if |entries| == 0 then Parsed(map[])
    else
      var n := |entries| - 1;
      match Collect(entries[..n])
      case Failed(m, e) => Failed(m, e)
      case Parsed(m) =>
        match entries[n]
        case Success(server) => Parsed(m[n := server])
        case Failure(e) => Failed(m, e)
  }

  /** What parsing each entry on its own gives, entry `k` with id `k`. */
  function Entries(parts: seq<string>): seq<Result<QuorumServer, JavaException>>
  {
    seq(|parts|, k requires 0 <= k < |parts| => ParsePart(parts[k], k))
  }

  /** `quorumSpecs.split(",")` followed by the loop over its parts. */
  function ParsePeerSpec(spec: string): PeerParse
  {
    Collect(Entries(Split(spec, ',')))
  }

  /** The loop completes when every entry parses; then key `k` holds entry `k`'s server, and nothing else is there. */
  lemma {:induction false} CollectParsed(entries: seq<Result<QuorumServer, JavaException>>)
    ensures Collect(entries).Parsed? <==> forall k :: 0 <= k < |entries| ==> entries[k].Success?
    ensures Collect(entries).Parsed? ==>
      && (forall k :: k in Collect(entries).peers <==> 0 <= k < |entries|)
      && (forall k :: 0 <= k < |entries| ==> entries[k] == Success(Collect(entries).peers[k]))
    decreases |entries|
  {
    if |entries| > 0 {
      var n := |entries| - 1;
      var init := entries[..n];
      CollectParsed(init);
      assert forall k :: 0 <= k < n ==> init[k] == entries[k];
      if Collect(init).Failed? {
        var j :| 0 <= j < n && !init[j].Success?;
        assert !entries[j].Success?;
      }
    }
  }

  /**
   * When the loop stops early, the map holds exactly the entries before the
   * first bad one, and the exception is the one that entry raised.
   */
  lemma {:induction false} CollectFailed(entries: seq<Result<QuorumServer, JavaException>>)
    ensures Collect(entries).Failed? ==>
      exists k :: 0 <= k < |entries| && Collect(entries[..k]) == Parsed(Collect(entries).peers)
                  && entries[k] == Failure(Collect(entries).error)
    decreases |entries|
  {
    if |entries| > 0 {
      var n := |entries| - 1;
      var init := entries[..n];
      var r := Collect(entries);
      if Collect(init).Failed? {
        CollectFailed(init);
        var k :| 0 <= k < |init| && Collect(init[..k]) == Parsed(r.peers) && init[k] == Failure(r.error);
        assert init[..k] == entries[..k];
      } else if r.Failed? {
        assert Collect(entries[..n]) == Parsed(r.peers);
      }
    }
  }

  /** The loop's step: one more entry that parses extends the map under the entry's position. */
  lemma CollectStep(entries: seq<Result<QuorumServer, JavaException>>, i: nat)
    requires i < |entries| && Collect(entries[..i]).Parsed? && entries[i].Success?
    ensures Collect(entries[..i + 1]) == Parsed(Collect(entries[..i]).peers[i := entries[i].value])
  {
    assert entries[..i + 1][..i] == entries[..i];
  }

  /** The first entry that fails ends the loop: later entries are never looked at. */
  lemma {:induction false} CollectStopsAt(entries: seq<Result<QuorumServer, JavaException>>, i: nat)
    requires i < |entries| && Collect(entries[..i]).Parsed? && entries[i].Failure?
    ensures Collect(entries) == Failed(Collect(entries[..i]).peers, entries[i].error)
    decreases |entries|
  {
    var n := |entries| - 1;
    if n > i {
      assert entries[..n][..i] == entries[..i];
      CollectStopsAt(entries[..n], i);
    } else {
      assert entries[..n] == entries[..i];
    }
  }

  /**
   * The loop over a list of entries completes when each entry parses, and
   * then gives one server per entry, under the entry's position, carrying
   * that position as its id.
   */
  lemma ParsedEntries(parts: seq<string>)
    ensures Collect(Entries(parts)).Parsed? <==> forall k :: 0 <= k < |parts| ==> ParsePart(parts[k], k).Success?
    ensures var r := Collect(Entries(parts));
      r.Parsed? ==>
        && (forall k :: k in r.peers <==> 0 <= k < |parts|)
        && (forall k :: 0 <= k < |parts| ==> ParsePart(parts[k], k) == Success(r.peers[k]) && r.peers[k].id == k)
  {
    var entries := Entries(parts);
    assert forall k :: 0 <= k < |parts| ==> entries[k] == ParsePart(parts[k], k);
    CollectParsed(entries);
  }

  /**
   * A peer spec parses when each of its comma-separated entries does, and
   * then gives one server per entry, under the entry's position, carrying
   * that position as its id.
   */
  lemma ParsedPeerSpec(spec: string)
    ensures var parts := Split(spec, ',');
      ParsePeerSpec(spec).Parsed? <==> forall k :: 0 <= k < |parts| ==> ParsePart(parts[k], k).Success?
    ensures var parts := Split(spec, ',');
      ParsePeerSpec(spec).Parsed? ==>
        && (forall k :: k in ParsePeerSpec(spec).peers <==> 0 <= k < |parts|)
        && (forall k :: 0 <= k < |parts| ==>
              ParsePart(parts[k], k) == Success(ParsePeerSpec(spec).peers[k]) && ParsePeerSpec(spec).peers[k].id == k)
  {
    ParsedEntries(Split(spec, ','));
  }

  /** `host:port` splits on `:` into the host and the printed port. */
  lemma HostPortParses(a: Address, id: int)
    requires Printable(a)
    ensures ParsePart(HostPort(a), id) == Success(QuorumServer(id, a))
  {
    IntToStringHasNoSeparator(a.port, ':');
    var p := IntToString(a.port);
    assert HostPort(a) == Join([a.host, p], ':');
    SplitOfJoin([a.host, p], ':');
    ParseIntOfIntToString(a.port);
  }

  /** Entry `k` parsed without error into server `k` at `addrs[k]`. */
  function Servers(addrs: seq<Address>): seq<Result<QuorumServer, JavaException>>
  {
    seq(|addrs|, k requires 0 <= k < |addrs| => Success(QuorumServer(k, addrs[k])))
  }

  /** Each `host:port` entry of a list of printable addresses parses into the server at its position. */
  lemma EntriesOfAddresses(addrs: seq<Address>)
    requires forall k :: 0 <= k < |addrs| ==> Printable(addrs[k])
    ensures Entries(HostPorts(addrs)) == Servers(addrs)
  {
    forall k | 0 <= k < |addrs|
      ensures ParsePart(HostPorts(addrs)[k], k) == Success(QuorumServer(k, addrs[k]))
    {
      HostPortParses(addrs[k], k);
    }
  }

  /** A list of printable addresses joined with `,` splits back into its `host:port` entries. */
  lemma SplitJoinedAddresses(addrs: seq<Address>)
    requires |addrs| >= 1
    requires forall k :: 0 <= k < |addrs| ==> Printable(addrs[k])
    ensures Split(JoinAddresses(addrs), ',') == HostPorts(addrs)
  {
    var parts := HostPorts(addrs);
    forall k | 0 <= k < |parts|
      ensures ',' !in parts[k]
    {
      IntToStringHasNoSeparator(addrs[k].port, ',');
    }
    assert ':' in parts[|parts| - 1];
    SplitOfJoin(parts, ',');
  }

  /**
   * A peer spec built from a list of printable addresses parses back into
   * the map from each list position to the server at that position.
   */
  lemma PeerSpecOfAddresses(addrs: seq<Address>)
    requires |addrs| >= 1
    requires forall k :: 0 <= k < |addrs| ==> Printable(addrs[k])
    ensures ParsePeerSpec(JoinAddresses(addrs)) == Parsed(map k | 0 <= k < |addrs| :: QuorumServer(k, addrs[k]))
  {
    SplitJoinedAddresses(addrs);
    EntriesOfAddresses(addrs);
    CollectServers(addrs);
  }

  /** Entries that all parse, entry `k` into server `k` at `addrs[k]`, give the map of those servers. */
  lemma CollectServers(addrs: seq<Address>)
    ensures Collect(Servers(addrs)) == Parsed(map k | 0 <= k < |addrs| :: QuorumServer(k, addrs[k]))
  {
    var entries := Servers(addrs);
    CollectParsed(entries);
    var m := Collect(entries).peers;
    var want := map k | 0 <= k < |addrs| :: QuorumServer(k, addrs[k]);
    assert m.Keys == want.Keys;
    assert forall k :: k in m ==> m[k] == want[k];
  }

  /** The first call's report is the peer spec of the list [client, quorum]. */
  lemma AddressReportIsJoin(client: Address, quorum: Address)
    ensures AddressReport(client, quorum) == JoinAddresses([client, quorum])
  {
    var parts := HostPorts([client, quorum]);
    assert parts == [HostPort(client), HostPort(quorum)];
    assert parts[1..] == [HostPort(quorum)];
    assert Join(parts[1..], ',') == HostPort(quorum);
    assert Join(parts, ',') == HostPort(client) + [','] + HostPort(quorum);
  }

  /** The first call's report, read as a peer spec, names the client address as peer 0 and the quorum address as peer 1. */
  lemma AddressReportAsPeerSpec(client: Address, quorum: Address)
    requires Printable(client) && Printable(quorum)
    ensures ParsePeerSpec(AddressReport(client, quorum)) ==
      Parsed(map[0 := QuorumServer(0, client), 1 := QuorumServer(1, quorum)])
  {
    var addrs := [client, quorum];
    assert addrs[0] == client && addrs[1] == quorum;
    AddressReportIsJoin(client, quorum);
    PeerSpecOfAddresses(addrs);
    PairMap(client, quorum);
  }

  /** The peer map of a two-address list, written out. */
  lemma PairMap(client: Address, quorum: Address)
    ensures (map k | 0 <= k < |[client, quorum]| :: QuorumServer(k, [client, quorum][k]))
         == map[0 := QuorumServer(0, client), 1 := QuorumServer(1, quorum)]
  {
    var addrs := [client, quorum];
    var m := map k | 0 <= k < |addrs| :: QuorumServer(k, addrs[k]);
    assert m.Keys == {0, 1};
  }
}
