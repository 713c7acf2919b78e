/** The log a leader keeps (walrq/src/cluster/raft.rs): indexes, commit position and compaction. */
module LeaderLogs {
  import opened Replication

  datatype LogEntry = LogEntry(term: nat, index: nat, command: Command)

  datatype LeaderLog = LeaderLog(entries: seq<LogEntry>, commit: nat, snapshot: nat, snapshotTerm: nat)

  const NEW_LOG: LeaderLog := LeaderLog([], 0, 0, 0)

  function NextIndex(l: LeaderLog): nat {
    if l.entries == [] then l.snapshot + 1 else l.entries[|l.entries| - 1].index + 1
  }

  function Numbered(term: nat, first: nat, commands: seq<Command>): seq<LogEntry> {
    seq(|commands|, i requires 0 <= i < |commands| => LogEntry(term, first + i, commands[i]))
  }

  function Append(l: LeaderLog, term: nat, commands: seq<Command>): LeaderLog {
    l.(entries := l.entries + Numbered(term, NextIndex(l), commands))
  }

  /** How many entries from the start reach up to the last one not beyond `commit`. */
  function UpTo(entries: seq<LogEntry>, commit: nat): (n: nat)
    ensures n <= |entries|
    ensures 0 < n ==> entries[n - 1].index <= commit
    ensures forall i :: n <= i < |entries| ==> commit < entries[i].index
  {
    if entries == [] || entries[|entries| - 1].index <= commit then |entries|
    else UpTo(entries[..|entries| - 1], commit)
  }

  /** `compact_log_snapshot` drops what is committed, but not when only the first entry is. */
  function Compact(l: LeaderLog): LeaderLog {
    var n := UpTo(l.entries, l.commit);
    if l.entries != [] && l.entries[0].index < l.commit && 0 < n then
      LeaderLog(l.entries[n..], l.commit, l.entries[n - 1].index, l.entries[n - 1].term)
    else l
  }

  datatype LogOp =
    /** A proposal of at least one command; `ok` unless the quorum failed. */
    | Proposal(term: nat, commands: seq<Command>, ok: bool)
    | Compaction

  function Propose(l: LeaderLog, term: nat, commands: seq<Command>, ok: bool, threshold: nat): LeaderLog
    requires commands != []
  {
    var l1 := Append(l, term, commands);
    var last := NextIndex(l1) - 1;
    if !ok then l1
    else if 0 < threshold && last % threshold == 0 then Compact(l1.(commit := last))
    else l1.(commit := last)
  }

  ghost predicate RealOps(ops: seq<LogOp>) {
    forall i :: 0 <= i < |ops| && ops[i].Proposal? ==> ops[i].commands != []
  }

  ghost function RunLog(ops: seq<LogOp>, threshold: nat): LeaderLog
    requires RealOps(ops)
  {
    if ops == [] then NEW_LOG
    else
      var l := RunLog(ops[..|ops| - 1], threshold);
      match ops[|ops| - 1]
      case Proposal(term, commands, ok) => Propose(l, term, commands, ok, threshold)
      case Compaction => Compact(l)
  }

  /** Entry i has index snapshot + 1 + i, and the commit position is within the log. */
  ghost predicate Shape(l: LeaderLog) {
    && (forall i :: 0 <= i < |l.entries| ==> l.entries[i].index == l.snapshot + 1 + i)
    && l.snapshot <= l.commit <= l.snapshot + |l.entries|
  }

  lemma AppendShape(l: LeaderLog, term: nat, commands: seq<Command>)
    requires Shape(l)
    ensures Shape(Append(l, term, commands))
    ensures NextIndex(Append(l, term, commands)) == NextIndex(l) + |commands|
            == l.snapshot + |l.entries| + |commands| + 1
  {
    var l1 := Append(l, term, commands);
    assert forall i :: |l.entries| <= i < |l1.entries| ==>
      l1.entries[i] == Numbered(term, NextIndex(l), commands)[i - |l.entries|];
  }

  /** Compaction drops exactly the committed entries and moves the snapshot to the commit position. */
  lemma CompactShape(l: LeaderLog)
    requires Shape(l)
    ensures Shape(Compact(l)) && Compact(l).commit == l.commit && NextIndex(Compact(l)) == NextIndex(l)
    ensures if l.snapshot + 1 < l.commit then
              Compact(l).snapshot == l.commit && Compact(l).entries == l.entries[l.commit - l.snapshot..]
            else Compact(l) == l
  {
    var n := UpTo(l.entries, l.commit);
    if l.entries != [] && l.entries[0].index < l.commit {
      assert n == l.commit - l.snapshot by {
        if n < |l.entries| {
          assert l.commit < l.entries[n].index;
        }
        assert l.entries[l.commit - l.snapshot - 1].index == l.commit;
      }
    }
  }

  lemma ProposeShape(l: LeaderLog, term: nat, commands: seq<Command>, ok: bool, threshold: nat)
    requires Shape(l) && commands != []
    ensures Shape(Propose(l, term, commands, ok, threshold))
    ensures NextIndex(Propose(l, term, commands, ok, threshold)) == NextIndex(l) + |commands|
  {
    var l1 := Append(l, term, commands);
    AppendShape(l, term, commands);
    CompactShape(l1.(commit := NextIndex(l1) - 1));
  }

  /** Over every sequence of proposals, whether or not their quorum is reached, and compactions. */
  lemma {:induction false} RunShape(ops: seq<LogOp>, threshold: nat)
    requires RealOps(ops)
    ensures Shape(RunLog(ops, threshold))
  {
    if ops != [] {
      var front := ops[..|ops| - 1];
      RunShape(front, threshold);
      var l := RunLog(front, threshold);
      match ops[|ops| - 1]
      case Proposal(term, commands, ok) => ProposeShape(l, term, commands, ok, threshold);
      case Compaction => CompactShape(l);
    }
  }

  /** Number of commands proposed. */
  function Proposed(ops: seq<LogOp>): nat {
    if ops == [] then 0
    else Proposed(ops[..|ops| - 1]) + if ops[|ops| - 1].Proposal? then |ops[|ops| - 1].commands| else 0
  }

  /** No index is used twice: the next one counts all commands ever proposed, whatever was compacted. */
  lemma {:induction false} IndexesCount(ops: seq<LogOp>, threshold: nat)
    requires RealOps(ops)
    ensures NextIndex(RunLog(ops, threshold)) == Proposed(ops) + 1
  {
    if ops != [] {
      var front := ops[..|ops| - 1];
      IndexesCount(front, threshold);
      RunShape(front, threshold);
      var l := RunLog(front, threshold);
      match ops[|ops| - 1]
      case Proposal(term, commands, ok) => ProposeShape(l, term, commands, ok, threshold);
      case Compaction => CompactShape(l);
    }
  }

  // ---------------------------------------------------------------- what the log holds

  /** Every command ever proposed, in order ... */
  function Commands(ops: seq<LogOp>): (r: seq<Command>)
    ensures |r| == Proposed(ops)
  {
    if ops == [] then []
    else Commands(ops[..|ops| - 1]) + if ops[|ops| - 1].Proposal? then ops[|ops| - 1].commands else []
  }

  /** ... and the terms they were proposed in. */
  function Terms(ops: seq<LogOp>): (r: seq<nat>)
    ensures |r| == Proposed(ops)
  {
    if ops == [] then []
    else
      var op := ops[|ops| - 1];
      Terms(ops[..|ops| - 1]) + if op.Proposal? then seq(|op.commands|, _ => op.term) else []
  }

  /** Number of commands proposed up to and including the last proposal that reached its quorum. */
  function Committed(ops: seq<LogOp>): nat {
    if ops == [] then 0
    else if ops[|ops| - 1].Proposal? && ops[|ops| - 1].ok then Proposed(ops)
    else Committed(ops[..|ops| - 1])
  }

  /** The log holds every command after the snapshot, with its term and its index, and remembers the term
      of the last one before. */
  ghost predicate Keeps(l: LeaderLog, commands: seq<Command>, terms: seq<nat>) {
    && |commands| == |terms| == l.snapshot + |l.entries|
    && (forall i :: 0 <= i < |l.entries| ==>
          l.entries[i] == LogEntry(terms[l.snapshot + i], l.snapshot + i + 1, commands[l.snapshot + i]))
    && (0 < l.snapshot ==> l.snapshotTerm == terms[l.snapshot - 1])
  }

  lemma AppendKeeps(l: LeaderLog, all: seq<Command>, terms: seq<nat>, term: nat, commands: seq<Command>)
    requires Shape(l) && Keeps(l, all, terms)
    ensures Keeps(Append(l, term, commands), all + commands, terms + seq(|commands|, _ => term))
  {
  }

  lemma CompactKeeps(l: LeaderLog, all: seq<Command>, terms: seq<nat>)
    requires Shape(l) && Keeps(l, all, terms)
    ensures Keeps(Compact(l), all, terms)
  {
    hide UpTo;
    CompactShape(l);
    var n, d := UpTo(l.entries, l.commit), l.commit - l.snapshot;
    if 1 < d {
      assert |l.entries[n..]| == |l.entries[d..]|;
      assert forall i :: 0 <= i < |l.entries| - d ==> l.entries[d..][i] == l.entries[d + i];
    }
  }

  lemma CommitKeeps(l: LeaderLog, commit: nat, all: seq<Command>, terms: seq<nat>)
    requires Keeps(l, all, terms)
    ensures Keeps(l.(commit := commit), all, terms)
  {
  }

  /** Over every sequence of proposals, with or without quorum, and compactions: the commit position is the
      number of commands proposed up to the last proposal that reached its quorum, the entries are all
      commands after the snapshot with their own terms and indexes, and the snapshot term is that of the
      last command in the snapshot. */
  lemma {:induction false} RunHolds(ops: seq<LogOp>, threshold: nat)
    requires RealOps(ops)
    ensures var l := RunLog(ops, threshold);
            l.commit == Committed(ops) && Keeps(l, Commands(ops), Terms(ops))
  {
    hide Keeps, Append, Compact, Shape;
    if ops == [] {
      NewKeeps();
    } else {
      var front := ops[..|ops| - 1];
      var l := RunLog(front, threshold);
      RunHolds(front, threshold);
      RunShape(front, threshold);
      IndexesCount(ops, threshold);
      match ops[|ops| - 1]
      case Proposal(term, commands, ok) =>
        ProposeHolds(l, Commands(front), Terms(front), term, commands, ok, threshold);
      case Compaction =>
        CompactShape(l);
        CompactKeeps(l, Commands(front), Terms(front));
        assert Commands(ops) == Commands(front) && Terms(ops) == Terms(front);
    }
  }

  lemma NewKeeps()
    ensures Keeps(NEW_LOG, [], [])
  {
  }

  lemma ProposeHolds(l: LeaderLog, all: seq<Command>, terms: seq<nat>, term: nat, commands: seq<Command>, ok: bool,
                     threshold: nat)
    requires Shape(l) && Keeps(l, all, terms) && commands != []
    ensures var l' := Propose(l, term, commands, ok, threshold);
            && Keeps(l', all + commands, terms + seq(|commands|, _ => term))
            && l'.commit == if ok then |all| + |commands| else l.commit
  {
    hide Append, Compact;
    var l1 := Append(l, term, commands);
    var last := NextIndex(l1) - 1;
    AppendShape(l, term, commands);
    AppendFrame(l, term, commands);
    AppendKeeps(l, all, terms, term, commands);
    CommitKeeps(l1, last, all + commands, terms + seq(|commands|, _ => term));
    CompactShape(l1.(commit := last));
    CompactKeeps(l1.(commit := last), all + commands, terms + seq(|commands|, _ => term));
  }

  lemma AppendFrame(l: LeaderLog, term: nat, commands: seq<Command>)
    ensures var l1 := Append(l, term, commands);
            && l1.commit == l.commit && l1.snapshot == l.snapshot && |l1.entries| == |l.entries| + |commands|
  {
  }

  /** A successful proposal whose last index is a multiple of the threshold empties the log into the
      snapshot, unless it holds one entry only; any other keeps all entries. */
  lemma ProposeCompactsIff(l: LeaderLog, term: nat, commands: seq<Command>, ok: bool, threshold: nat)
    requires Shape(l) && commands != []
    ensures var l', last := Propose(l, term, commands, ok, threshold), l.snapshot + |l.entries| + |commands|;
            if ok && 0 < threshold && last % threshold == 0 && 2 <= |l.entries| + |commands| then
              l'.entries == [] && l'.snapshot == last && l'.snapshotTerm == term
            else l'.snapshot == l.snapshot && |l'.entries| == |l.entries| + |commands|
  {
    hide UpTo;
    var l1 := Append(l, term, commands);
    var l2 := l1.(commit := NextIndex(l1) - 1);
    AppendShape(l, term, commands);
    AppendFrame(l, term, commands);
    CompactShape(l2);
    assert l1.entries[|l1.entries| - 1].term == term;
    var n := UpTo(l2.entries, l2.commit);
    if 2 <= |l1.entries| {
      assert |l2.entries[l2.commit - l2.snapshot..]| == 0;
      assert Compact(l2).entries == [] && n == |l2.entries|;
    }
  }
}

/** A node of the cluster as an object. Replies of peers, requests of leaders and the acks the local
    engine accepts are parameters. */
module RaftNodes {
  import opened Basics
  import opened Recovery
  import opened Replication
  import opened LeaderLogs

  datatype Answer =
    | NotLeader(leader: Option<string>)
    | QuorumFailed
    | Committed

  /** What the network does with a request to a peer: loses it, loses the answer, or neither. */
  datatype Link = Lost | Unheard | Heard

  function CommandsOf(entries: seq<LogEntry>): seq<Command> {
    if entries == [] then [] else CommandsOf(entries[..|entries| - 1]) + [entries[|entries| - 1].command]
  }

  function EntriesAfter(entries: seq<LogEntry>, index: nat): seq<LogEntry> {
    if entries == [] then []
    else
      var last := entries[|entries| - 1];
      EntriesAfter(entries[..|entries| - 1], index) + if index < last.index then [last] else []
  }

  /** What a follower's log becomes when it receives entries: once it holds more than two thresholds of
      them it drops all but the last threshold. */
  function Receive(l: LeaderLog, more: seq<LogEntry>, threshold: nat): LeaderLog {
    var all := l.entries + more;
    if 0 < threshold && 2 * threshold < |all| then
      var n := |all| - threshold;
      LeaderLog(all[n..], l.commit, all[n - 1].index, all[n - 1].term)
    else l.(entries := all)
  }

  function ReceiveAll(batches: seq<seq<LogEntry>>, threshold: nat): LeaderLog {
    if batches == [] then NEW_LOG
    else Receive(ReceiveAll(batches[..|batches| - 1], threshold), batches[|batches| - 1], threshold)
  }

  function Received(batches: seq<seq<LogEntry>>): seq<LogEntry> {
    if batches == [] then [] else Received(batches[..|batches| - 1]) + batches[|batches| - 1]
  }

  /** The log is the end of `all`: at most two thresholds of entries and, once any was dropped, at least one;
      and the snapshot index and term are those of the last entry dropped. */
  ghost predicate EndOf(l: LeaderLog, all: seq<LogEntry>, threshold: nat) {
    var dropped := |all| - |l.entries|;
    && 0 <= dropped && l.entries == all[dropped..]
    && (threshold == 0 ==> dropped == 0)
    && (0 < threshold ==> |l.entries| <= 2 * threshold)
    && (0 < dropped ==> threshold <= |l.entries|)
    && (if 0 < dropped then l.snapshot == all[dropped - 1].index && l.snapshotTerm == all[dropped - 1].term
        else l.snapshot == 0 && l.snapshotTerm == 0)
  }

  lemma ReceiveKeeps(l: LeaderLog, all: seq<LogEntry>, more: seq<LogEntry>, threshold: nat)
    requires EndOf(l, all, threshold)
    ensures EndOf(Receive(l, more, threshold), all + more, threshold)
  {
    hide EndOf;
    GrownIsEnd(l, all, more, threshold);
    if 0 < threshold && 2 * threshold < |l.entries + more| {
      TrimKeeps(l, l.entries + more, all + more, threshold);
    } else {
      GrowKeeps(l, all, more, threshold);
    }
  }

  lemma GrownIsEnd(l: LeaderLog, all: seq<LogEntry>, more: seq<LogEntry>, threshold: nat)
    requires EndOf(l, all, threshold)
    ensures var grown := l.entries + more;
            |grown| <= |all + more| && grown == (all + more)[|all + more| - |grown|..]
  {
    SuffixMore(all, |all| - |l.entries|, more);
  }

  lemma GrowKeeps(l: LeaderLog, all: seq<LogEntry>, more: seq<LogEntry>, threshold: nat)
    requires EndOf(l, all, threshold) && (threshold == 0 || |l.entries + more| <= 2 * threshold)
    ensures EndOf(l.(entries := l.entries + more), all + more, threshold)
  {
    SuffixMore(all, |all| - |l.entries|, more);
  }

  lemma TrimKeeps(l: LeaderLog, grown: seq<LogEntry>, all: seq<LogEntry>, threshold: nat)
    requires 0 < threshold && 2 * threshold < |grown| <= |all| && grown == all[|all| - |grown|..]
    ensures var n := |grown| - threshold;
            EndOf(LeaderLog(grown[n..], l.commit, grown[n - 1].index, grown[n - 1].term), all, threshold)
  {
    SuffixOf(all, |all| - |grown|, |grown| - threshold);
  }

  /** Whatever a follower receives, its log is the end of it. */
  lemma {:induction false} FollowerKeeps(batches: seq<seq<LogEntry>>, threshold: nat)
    ensures EndOf(ReceiveAll(batches, threshold), Received(batches), threshold)
  {
    hide Receive;
    if batches != [] {
      var front := batches[..|batches| - 1];
      FollowerKeeps(front, threshold);
      hide EndOf;
      ReceiveKeeps(ReceiveAll(front, threshold), Received(front), batches[|batches| - 1], threshold);
    }
  }

  lemma SuffixMore(all: seq<LogEntry>, d: nat, more: seq<LogEntry>)
    requires d <= |all|
    ensures (all + more)[d..] == all[d..] + more && (0 < d ==> (all + more)[d - 1] == all[d - 1])
  {
  }

  lemma SuffixOf(all: seq<LogEntry>, d: nat, n: nat)
    requires d + n <= |all|
    ensures all[d..][n..] == all[d + n..] && (0 < n ==> all[d..][n - 1] == all[d + n - 1])
  {
  }

  /** The entries of a log after a given index are its end. */
  lemma {:induction false} AfterIsSuffix(entries: seq<LogEntry>, snapshot: nat, index: nat)
    requires snapshot <= index && forall i :: 0 <= i < |entries| ==> entries[i].index == snapshot + 1 + i
    ensures EntriesAfter(entries, index) == entries[Min(index - snapshot, |entries|)..]
  {
    if entries != [] {
      AfterIsSuffix(entries[..|entries| - 1], snapshot, index);
    }
  }

  /** The ids of a batch that the engine acknowledges, each once. */
  function AckedOf(ids: seq<Id>, accepted: set<Id>): set<Id> {
    set id | id in ids && id in accepted
  }

  function AckedKeys(shardOf: Sharding, queue: string, ids: set<Id>): set<Key> {
    set id | id in ids :: Key(shardOf(queue), id)
  }

  /** What the leader's engine does with the acks it accepts. */
  function LeaderAcks(shardOf: Sharding, r: Replica, queue: string, acked: set<Id>): Replica {
    r.(live := r.live - AckedKeys(shardOf, queue, acked))
  }

  /** Every majority of the nodes holds one whose engine stores what the commands push. */
  ghost predicate EveryMajority(shardOf: Sharding, self: string, peers: seq<string>, commands: seq<Command>,
                                before: map<string, Replica>, after: map<string, Replica>)
  {
    forall majority :: majority <= {self} + Elems(peers) && |majority| >= Quorum(|peers| + 1) ==>
      exists n :: n in majority && n in before && n in after && Stores(shardOf, before[n], after[n], commands)
  }

  lemma OkMeansEveryMajority(shardOf: Sharding, self: string, peers: seq<string>, replies: seq<Reply>,
                             commands: seq<Command>, before: map<string, Replica>, after: map<string, Replica>)
    requires GoodPeers(self, peers) && OneReplyEach(peers, replies)
    requires peers == [] || 1 + Successes(replies) >= Quorum(|peers| + 1)
    requires forall i :: 0 <= i < |commands| ==> commands[i].Push?
    requires AppliedBy(shardOf, {self} + Appliers(replies), before, after, commands)
    ensures EveryMajority(shardOf, self, peers, commands, before, after)
  {
    hide Stores, Appliers, ApplyAll;
    assert peers == [] ==> Quorum(|peers| + 1) == 1;
    forall majority | majority <= {self} + Elems(peers) && |majority| >= Quorum(|peers| + 1)
      ensures exists n :: n in majority && n in before && n in after && Stores(shardOf, before[n], after[n], commands)
    {
      EveryMajorityStores(shardOf, self, peers, replies, commands, before, after, majority);
    }
  }

  class RaftNode {
    const nodeId: string
    const shardOf: Sharding
    const threshold: nat
    var peers: seq<string>
    var isLeader: bool
    var term: nat
    var leader: Option<string>
    var entries: seq<LogEntry>
    var commit: nat
    var snapshot: nat
    var snapshotTerm: nat
    var engine: Replica

    function Log(): LeaderLog
      reads this
    {
      LeaderLog(entries, commit, snapshot, snapshotTerm)
    }

    constructor (nodeId: string, peers: seq<string>, shardOf: Sharding, engine: Replica, threshold: nat)
      ensures this.nodeId == nodeId && this.peers == peers && this.shardOf == shardOf && this.engine == engine
      ensures this.threshold == threshold && Log() == NEW_LOG && !isLeader && term == 0 && leader == None
    {
      this.nodeId, this.peers, this.shardOf, this.engine, this.threshold := nodeId, peers, shardOf, engine, threshold;
      isLeader, term, leader := false, 0, None;
      entries, commit, snapshot, snapshotTerm := [], 0, 0, 0;
    }

    // -------------------------------------------------------------- membership

    method Join(peer: string)
      modifies this`peers
      ensures peers == AddPeer(nodeId, old(peers), peer)
      ensures GoodPeers(nodeId, old(peers)) ==> GoodPeers(nodeId, peers)
    {
      if GoodPeers(nodeId, peers) {
        AddPeerGood(nodeId, peers, peer);
      }
      if peer !in peers && peer != nodeId {
        peers := peers + [peer];
      }
    }

    method Leave(peer: string)
      modifies this`peers
      ensures peers == RemovePeer(old(peers), peer)
      ensures GoodPeers(nodeId, old(peers)) ==> GoodPeers(nodeId, peers)
    {
      if GoodPeers(nodeId, peers) {
        RemovePeerGood(nodeId, peers, peer);
      }
      var kept: seq<string> := [];
      for k := 0 to |peers|
        invariant peers == old(peers) && kept == RemovePeer(peers[..k], peer)
      {
        PrefixStep(peers, k);
        if peers[k] != peer {
          kept := kept + [peers[k]];
        }
      }
      assert peers[..|peers|] == peers;
      peers := kept;
    }

    // -------------------------------------------------------------- the leader's log

    method AppendCommands(commands: seq<Command>)
      modifies this`entries
      ensures Log() == Append(old(Log()), term, commands)
    {
      var first := if entries == [] then snapshot + 1 else entries[|entries| - 1].index + 1;
      for k := 0 to |commands|
        invariant entries == old(entries) + Numbered(term, first, commands)[..k]
      {
        PrefixStep(Numbered(term, first, commands), k);
        entries := entries + [LogEntry(term, first + k, commands[k])];
      }
    }

    method CompactLogSnapshot()
      modifies this`entries, this`snapshot, this`snapshotTerm
      ensures Log() == Compact(old(Log()))
    {
      if entries != [] && entries[0].index < commit {
        var n := |entries|;
        assert entries[..n] == entries;
        while 0 < n && commit < entries[n - 1].index
          invariant Log() == old(Log()) && 0 <= n <= |entries| && UpTo(entries[..n], commit) == UpTo(entries, commit)
        {
          UpToSkips(entries, n, commit);
          n := n - 1;
        }
        UpToWhole(entries, n, commit);
        if 0 < n {
          snapshot, snapshotTerm := entries[n - 1].index, entries[n - 1].term;
          entries := entries[n..];
        }
      }
    }

    /** Marks everything logged so far as committed. */
    method Commit()
      requires entries != []
      modifies this`commit, this`entries, this`snapshot, this`snapshotTerm
      ensures var l := old(Log()).(commit := old(entries)[|old(entries)| - 1].index);
              Log() == if 0 < threshold && l.commit % threshold == 0 then Compact(l) else l
    {
      commit := entries[|entries| - 1].index;
      if 0 < threshold && commit % threshold == 0 {
        CompactLogSnapshot();
      }
    }

    // -------------------------------------------------------------- proposals

    /** `nodes` are the nodes behind the peer list; all nodes hash queue names alike. */
    ghost predicate Peers(nodes: seq<RaftNode>)
      reads this`peers
    {
      && this !in nodes && |nodes| == |peers|
      && forall i :: 0 <= i < |nodes| ==> nodes[i].nodeId == peers[i] && nodes[i].shardOf == shardOf
    }

    /** Logs a batch of pushes, sends it to the peers and commits it once a majority has answered success.
        `links` says what the network does with each request; `before` and `after` are the engines of all
        nodes around a committed batch. */
    method ProposePushBatch(commands: seq<Command>, nodes: seq<RaftNode>, links: seq<Link>)
      returns (answer: Answer, ghost replies: seq<Reply>, ghost before: map<string, Replica>,
               ghost after: map<string, Replica>)
      requires forall i :: 0 <= i < |commands| ==> commands[i].Push?
      requires Peers(nodes) && |links| == |nodes|
      modifies this`entries, this`commit, this`snapshot, this`snapshotTerm, this`engine, nodes
      ensures answer.NotLeader? <==> !isLeader
      ensures answer.NotLeader? ==> answer.leader == leader
      ensures !isLeader || commands == [] ==>
              Log() == old(Log()) && forall n :: n == this || n in nodes ==> n.engine == old(n.engine)
      ensures isLeader && commands != [] ==>
              && Log() == Propose(old(Log()), term, commands, answer.Committed?, threshold)
              && engine == (if answer.Committed? then ApplyAll(shardOf, old(engine), commands) else old(engine))
              && (answer.Committed? <==> peers == [] || 1 + Successes(replies) >= Quorum(|peers| + 1))
              && |replies| == |peers|
              && forall i :: 0 <= i < |peers| ==>
                   replies[i] == Reply(peers[i], links[i].Heard? && old(nodes[i].term) <= term)
      ensures isLeader && commands != [] && GoodPeers(nodeId, peers) ==>
              forall i :: 0 <= i < |nodes| ==>
                nodes[i].engine == if !links[i].Lost? && old(nodes[i].term) <= term
                                   then ApplyAll(shardOf, old(nodes[i].engine), commands)
                                   else old(nodes[i].engine)
      ensures answer.Committed? && commands != [] && GoodPeers(nodeId, peers) ==>
              && nodeId in before && before[nodeId] == old(engine) && nodeId in after && after[nodeId] == engine
              && (forall i :: 0 <= i < |nodes| ==>
                    && peers[i] in before && before[peers[i]] == old(nodes[i].engine)
                    && peers[i] in after && after[peers[i]] == nodes[i].engine)
              && EveryMajority(shardOf, nodeId, peers, commands, before, after)
    {
      hide ApplyAll, Compact, Append, NextIndex, Successes, Appliers, Quorum, OneReplyEach, AppliedBy, EveryMajority,
        Stores, Numbered, CommandsOf, Elems;
      if !isLeader {
        return NotLeader(leader), [], map[], map[];
      }
      if commands == [] {
        return Committed, [], map[], map[];
      }
      var more := Numbered(term, NextIndex(Log()), commands);
      NumberedCommands(term, NextIndex(Log()), commands);
      AppendNext(Log(), term, commands);
      AppendCommands(commands);
      var answers;
      answers, before, after := Broadcast(term, nodeId, nodes, links, more, shardOf);
      var enough := ReachedQuorum(answers);
      if !enough {
        return QuorumFailed, answers, before, after;
      }
      Commit();
      ApplyCommands(commands);
      if GoodPeers(nodeId, peers) {
        RepliesOnce(peers, answers);
        WithLeader(shardOf, nodeId, peers, answers, commands, before, after, old(engine));
        OkMeansEveryMajority(shardOf, nodeId, peers, answers, commands, before[nodeId := old(engine)],
                             after[nodeId := engine]);
      }
      return Committed, answers, before[nodeId := old(engine)], after[nodeId := engine];
    }

    /** Counts the answers of the peers; a single node needs none. */
    method ReachedQuorum(replies: seq<Reply>) returns (enough: bool)
      ensures enough <==> peers == [] || 1 + Successes(replies) >= Quorum(|peers| + 1)
    {
      var total := |peers| + 1;
      enough := true;
      if 1 < total {
        var acks := CollectAcks(replies, Quorum(total));
        enough := acks >= Quorum(total);
      }
    }

    /** Acks are taken by the leader's engine first: `accepted` are the ids whose receipts it accepts. All
        items are logged and sent to the peers once one is accepted; `count` is the number of messages
        acknowledged. What the peers answer is not looked at. */
    method ProposeAckBatch(queue: string, ids: seq<Id>, accepted: set<Id>, nodes: seq<RaftNode>, links: seq<Link>)
      returns (answer: Answer, count: nat)
      requires Peers(nodes) && |links| == |nodes|
      modifies this`entries, this`commit, this`snapshot, this`snapshotTerm, this`engine, nodes
      ensures answer.NotLeader? <==> !isLeader
      ensures answer.NotLeader? ==> answer.leader == leader
      ensures !answer.QuorumFailed?
      ensures count == if isLeader then |AckedOf(ids, accepted)| else 0
      ensures count == 0 ==> Log() == old(Log()) && forall n :: n == this || n in nodes ==> n.engine == old(n.engine)
      ensures 0 < count ==>
              && Log() == Propose(old(Log()), term, AckCommands(queue, ids), true, threshold)
              && engine == LeaderAcks(shardOf, old(engine), queue, AckedOf(ids, accepted))
      ensures 0 < count && GoodPeers(nodeId, peers) ==>
              forall i :: 0 <= i < |nodes| ==>
                nodes[i].engine == if !links[i].Lost? && old(nodes[i].term) <= term
                                   then ApplyAll(shardOf, old(nodes[i].engine), AckCommands(queue, ids))
                                   else old(nodes[i].engine)
    {
      hide LeaderAcks, Compact, Append, NextIndex, AckCommands, ApplyAll, Numbered, CommandsOf, AppliedBy, Appliers;
      if !isLeader {
        return NotLeader(leader), 0;
      }
      var acked := AckedOf(ids, accepted);
      count := |acked|;
      if count == 0 {
        return Committed, 0;
      }
      assert ids != [];
      engine := LeaderAcks(shardOf, engine, queue, acked);
      var commands := AckCommands(queue, ids);
      var more := Numbered(term, NextIndex(Log()), commands);
      NumberedCommands(term, NextIndex(Log()), commands);
      AppendNext(Log(), term, commands);
      AppendCommands(commands);
      var answers, before, after := Broadcast(term, nodeId, nodes, links, more, shardOf);
      Commit();
      return Committed, count;
    }

    // -------------------------------------------------------------- followers

    method ApplyCommands(commands: seq<Command>)
      modifies this`engine
      ensures engine == ApplyAll(shardOf, old(engine), commands)
    {
      for k := 0 to |commands|
        invariant engine == ApplyAll(shardOf, old(engine), commands[..k])
      {
        PrefixStep(commands, k);
        engine := Apply(shardOf, engine, commands[k]);
      }
      assert commands[..|commands|] == commands;
    }

    method ApplyEntries(more: seq<LogEntry>)
      modifies this`entries, this`engine
      ensures engine == ApplyAll(shardOf, old(engine), CommandsOf(more)) && entries == old(entries) + more
    {
      hide Apply;
      EmptyRight(entries);
      for k := 0 to |more|
        invariant engine == ApplyAll(shardOf, old(engine), CommandsOf(more[..k]))
        invariant entries == old(entries) + more[..k]
      {
        PrefixStep(more, k);
        Snoc(CommandsOf(more[..k]), more[k].command);
        Assoc(old(entries), more[..k], [more[k]]);
        engine := Apply(shardOf, engine, more[k].command);
        entries := entries + [more[k]];
      }
      assert more[..|more|] == more;
    }

    /** Answers true only after every entry has been applied. */
    method HandleAppendEntries(leaderTerm: nat, leaderId: string, more: seq<LogEntry>) returns (success: bool)
      modifies this`leader, this`entries, this`engine, this`snapshot, this`snapshotTerm
      ensures success <==> term <= leaderTerm
      ensures !success ==> Log() == old(Log()) && engine == old(engine) && leader == old(leader)
      ensures success ==>
              && leader == Some(leaderId) && engine == ApplyAll(shardOf, old(engine), CommandsOf(more))
              && Log() == Receive(old(Log()), more, threshold)
    {
      if leaderTerm < term {
        return false;
      }
      leader := Some(leaderId);
      hide ApplyAll, CommandsOf;
      ApplyEntries(more);
      if 0 < threshold && 2 * threshold < |entries| {
        var n := |entries| - threshold;
        snapshot, snapshotTerm := entries[n - 1].index, entries[n - 1].term;
        entries := entries[n..];
      }
      return true;
    }

    /** The engine is cleared and receives the leader's live messages. */
    method HandleInstallSnapshot(leaderTerm: nat, leaderId: string, index: nat, indexTerm: nat, items: seq<Command>)
      returns (success: bool)
      modifies this`leader, this`entries, this`engine, this`snapshot, this`snapshotTerm, this`commit
      ensures success <==> term <= leaderTerm
      ensures !success ==> Log() == old(Log()) && engine == old(engine) && leader == old(leader)
      ensures success ==>
              && leader == Some(leaderId) && engine == ApplyAll(shardOf, EMPTY, items)
              && Log() == LeaderLog(EntriesAfter(old(entries), index), index, index, indexTerm)
    {
      if leaderTerm < term {
        return false;
      }
      leader := Some(leaderId);
      snapshot, snapshotTerm, commit := index, indexTerm, index;
      engine := EMPTY;
      ApplyCommands(items);
      entries := Retain(entries, index);
      return true;
    }

    method HandleVote(candidateTerm: nat, candidate: string) returns (granted: bool)
      modifies this`term, this`isLeader, this`leader
      ensures granted <==> old(term) < candidateTerm
      ensures granted ==> term == candidateTerm && !isLeader && leader == Some(candidate)
      ensures !granted ==> term == old(term) && isLeader == old(isLeader) && leader == old(leader)
    {
      granted := term < candidateTerm;
      if granted {
        term, isLeader, leader := candidateTerm, false, Some(candidate);
      }
    }

    // -------------------------------------------------------------- promotion

    /** Re-pushes the pushes of `from` whose id no ack of the log names. */
    method Repush(from: seq<LogEntry>, acked: set<Id>)
      modifies this`engine
      ensures engine == ApplyAll(shardOf, old(engine), Unacked(CommandsOf(from), acked))
    {
      for k := 0 to |from|
        invariant engine == ApplyAll(shardOf, old(engine), Unacked(CommandsOf(from[..k]), acked))
      {
        PrefixStep(from, k);
        Snoc(CommandsOf(from[..k]), from[k].command);
        var c := from[k].command;
        if c.Push? && c.id !in acked {
          Snoc(Unacked(CommandsOf(from[..k]), acked), c);
          engine := Apply(shardOf, engine, c);
        } else {
          EmptyRight(Unacked(CommandsOf(from[..k]), acked));
        }
      }
      assert from[..|from|] == from;
    }

    method CollectAckedIds() returns (acked: set<Id>)
      ensures acked == AckedIds(CommandsOf(entries))
    {
      acked := {};
      for k := 0 to |entries|
        invariant acked == AckedIds(CommandsOf(entries[..k]))
      {
        PrefixStep(entries, k);
        Snoc(CommandsOf(entries[..k]), entries[k].command);
        AckedIdsSnoc(CommandsOf(entries[..k]), entries[k].command);
        match entries[k].command
        case Ack(_, id) => acked := acked + {id};
        case Push(_, _, _) =>
      }
      assert entries[..|entries|] == entries;
    }

    method RecoverAsNewLeader()
      modifies this`isLeader, this`leader, this`engine
      ensures isLeader && leader == Some(nodeId)
      ensures var log := CommandsOf(entries);
              engine == if 0 < snapshot
                        then ApplyAll(shardOf, old(engine),
                                      Unacked(CommandsOf(EntriesAfter(entries, snapshot)), AckedIds(log)))
                        else ApplyAll(shardOf, EMPTY, Unacked(log, AckedIds(log)))
    {
      isLeader, leader := true, Some(nodeId);
      var acked := CollectAckedIds();
      if 0 < snapshot {
        var recent := Retain(entries, snapshot);
        Repush(recent, acked);
      } else {
        engine := EMPTY;
        Repush(entries, acked);
      }
    }
  }

  /** No node is listed twice. */
  ghost predicate Apart(nodes: seq<RaftNode>) {
    forall i, j :: 0 <= i < j < |nodes| ==> nodes[i] != nodes[j] && nodes[i].nodeId != nodes[j].nodeId
  }

  lemma {:induction false} NumberedCommands(term: nat, first: nat, commands: seq<Command>)
    ensures CommandsOf(Numbered(term, first, commands)) == commands
  {
    if commands != [] {
      var n := |commands| - 1;
      NumberedCommands(term, first, commands[..n]);
      assert Numbered(term, first, commands)[..n] == Numbered(term, first, commands[..n]);
      Unsnoc(commands);
    }
  }

  lemma RepliesOnce(peers: seq<string>, replies: seq<Reply>)
    requires NoDup(peers) && |replies| == |peers| && forall i :: 0 <= i < |peers| ==> replies[i].peer == peers[i]
    ensures OneReplyEach(peers, replies)
  {
  }

  /** Sends the entries to every peer. A peer that is not heard from counts as one that refused; every peer
      that answered success has applied the commands. */
  method Broadcast(leaderTerm: nat, leaderId: string, followers: seq<RaftNode>, links: seq<Link>, more: seq<LogEntry>,
                   shardOf: Sharding)
    returns (replies: seq<Reply>, ghost before: map<string, Replica>, ghost after: map<string, Replica>)
    requires |links| == |followers| && forall i :: 0 <= i < |followers| ==> followers[i].shardOf == shardOf
    modifies followers
    ensures |replies| == |followers| && forall i :: 0 <= i < |followers| ==>
              replies[i] == Reply(followers[i].nodeId, links[i].Heard? && old(followers[i].term) <= leaderTerm)
    ensures Apart(followers) ==> forall i :: 0 <= i < |followers| ==>
              followers[i].engine
              == if !links[i].Lost? && old(followers[i].term) <= leaderTerm
                 then ApplyAll(shardOf, old(followers[i].engine), CommandsOf(more))
                 else old(followers[i].engine)
    ensures Apart(followers) ==> forall i :: 0 <= i < |followers| ==>
              var n := followers[i].nodeId;
              n in before && before[n] == old(followers[i].engine) && n in after && after[n] == followers[i].engine
    ensures Apart(followers) ==> AppliedBy(shardOf, Appliers(replies), before, after, CommandsOf(more))
  {
    hide ApplyAll, CommandsOf, Receive;
    replies, before, after := [], map[], map[];
    for k := 0 to |followers|
      invariant |replies| == k && forall i :: 0 <= i < |followers| ==> followers[i].term == old(followers[i].term)
      invariant Apart(followers) ==> forall i :: k <= i < |followers| ==>
                  followers[i].engine == old(followers[i].engine)
      invariant forall i :: 0 <= i < k ==>
                  replies[i] == Reply(followers[i].nodeId, links[i].Heard? && old(followers[i].term) <= leaderTerm)
      invariant Apart(followers) ==> forall i :: 0 <= i < k ==>
                  followers[i].engine
                  == if !links[i].Lost? && old(followers[i].term) <= leaderTerm
                     then ApplyAll(shardOf, old(followers[i].engine), CommandsOf(more))
                     else old(followers[i].engine)
      invariant Apart(followers) ==> forall i :: 0 <= i < k ==>
                  var n := followers[i].nodeId;
                  n in before && before[n] == old(followers[i].engine) && n in after && after[n] == followers[i].engine
    {
      var f := followers[k];
      var success := false;
      before := before[f.nodeId := f.engine];
      if !links[k].Lost? {
        success := f.HandleAppendEntries(leaderTerm, leaderId, more);
      }
      after := after[f.nodeId := f.engine];
      replies := replies + [Reply(f.nodeId, success && links[k].Heard?)];
    }
    if Apart(followers) {
      SuccessfulApplied(shardOf, replies, before, after, CommandsOf(more));
    }
  }

  lemma SuccessfulApplied(shardOf: Sharding, replies: seq<Reply>, before: map<string, Replica>,
                          after: map<string, Replica>, commands: seq<Command>)
    requires forall i :: 0 <= i < |replies| && replies[i].success ==>
               var n := replies[i].peer;
               n in before && n in after && after[n] == ApplyAll(shardOf, before[n], commands)
    ensures AppliedBy(shardOf, Appliers(replies), before, after, commands)
  {
    hide ApplyAll;
    forall n | n in Appliers(replies)
      ensures n in before && n in after && after[n] == ApplyAll(shardOf, before[n], commands)
    {
      var r :| r in replies && r.success && r.peer == n;
      var i :| 0 <= i < |replies| && replies[i] == r;
      assert replies[i].success;
    }
  }

  lemma WithLeader(shardOf: Sharding, self: string, peers: seq<string>, replies: seq<Reply>, commands: seq<Command>,
                   before: map<string, Replica>, after: map<string, Replica>, engine: Replica)
    requires GoodPeers(self, peers) && OneReplyEach(peers, replies)
    requires AppliedBy(shardOf, Appliers(replies), before, after, commands)
    ensures AppliedBy(shardOf, {self} + Appliers(replies), before[self := engine],
                      after[self := ApplyAll(shardOf, engine, commands)], commands)
  {
    hide ApplyAll;
    AppliersCount(peers, replies);
  }

  lemma UpToSkips(entries: seq<LogEntry>, n: nat, commit: nat)
    requires 0 < n <= |entries| && commit < entries[n - 1].index
    ensures UpTo(entries[..n], commit) == UpTo(entries[..n - 1], commit)
  {
    assert entries[..n][..n - 1] == entries[..n - 1];
  }

  lemma UpToWhole(entries: seq<LogEntry>, n: nat, commit: nat)
    requires n <= |entries| && (n == 0 || entries[n - 1].index <= commit)
    ensures UpTo(entries[..n], commit) == n
  {
  }

  lemma AppendNext(l: LeaderLog, term: nat, commands: seq<Command>)
    requires commands != []
    ensures var l1 := Append(l, term, commands);
            l1.entries != [] && NextIndex(l1) == l1.entries[|l1.entries| - 1].index + 1
  {
  }

  lemma AfterStart(entries: seq<LogEntry>, index: nat)
    ensures EntriesAfter(entries[..0], index) == []
  {
  }

  lemma AfterStep(entries: seq<LogEntry>, k: nat, index: nat)
    requires k < |entries|
    ensures EntriesAfter(entries[..k + 1], index)
            == if index < entries[k].index then EntriesAfter(entries[..k], index) + [entries[k]]
               else EntriesAfter(entries[..k], index)
  {
    PrefixStep(entries, k);
    EmptyRight(EntriesAfter(entries[..k], index));
  }

  /** Keeps the entries after `index`. */
  method Retain(entries: seq<LogEntry>, index: nat) returns (kept: seq<LogEntry>)
    ensures kept == EntriesAfter(entries, index)
  {
    hide EntriesAfter;
    kept := [];
    AfterStart(entries, index);
    for k := 0 to |entries|
      invariant kept == EntriesAfter(entries[..k], index)
    {
      AfterStep(entries, k, index);
      if index < entries[k].index {
        kept := kept + [entries[k]];
      }
    }
    assert entries[..|entries|] == entries;
  }

  function AckCommands(queue: string, ids: seq<Id>): (r: seq<Command>)
    ensures |r| == |ids|
  {
    seq(|ids|, i requires 0 <= i < |ids| => Command.Ack(queue, ids[i]))
  }

  lemma AckedIdsSnoc(log: seq<Command>, c: Command)
    ensures AckedIds(log + [c]) == AckedIds(log) + if c.Ack? then {c.id} else {}
  {
  }

  lemma {:induction false} RecentInLog(entries: seq<LogEntry>, index: nat)
    ensures forall c :: c in CommandsOf(EntriesAfter(entries, index)) ==> c in CommandsOf(entries)
  {
    if entries != [] {
      var front, last := entries[..|entries| - 1], entries[|entries| - 1];
      RecentInLog(front, index);
      var kept := EntriesAfter(front, index);
      Snoc(kept, last);
      EmptyRight(kept);
    }
  }

  /** Promotion on top of a snapshot leaves an engine that applied its log as it is, so its live
      messages are those of in-order replay. */
  lemma PromotionOnSnapshot(shardOf: Sharding, base: Replica, entries: seq<LogEntry>, snapshot: nat)
    ensures var log := CommandsOf(entries);
            var engine := ApplyAll(shardOf, base, log);
            ApplyAll(shardOf, engine, Unacked(CommandsOf(EntriesAfter(entries, snapshot)), AckedIds(log))) == engine
  {
    var log, recent := CommandsOf(entries), CommandsOf(EntriesAfter(entries, snapshot));
    UnackedPushes(recent, AckedIds(log));
    RecentInLog(entries, snapshot);
    RepushChangesNothing(shardOf, base, log, Unacked(recent, AckedIds(log)));
  }

  // ---------------------------------------------------------------- agreement after a batch of acks

  /** The ids of the live messages, in whatever shard they are. */
  ghost function LiveIds(r: Replica): set<Id> {
    set k | k in r.live :: k.id
  }

  /** Every message is live in one shard only. */
  ghost predicate OneShardEach(r: Replica) {
    forall k, k' :: k in r.live && k' in r.live && k.id == k'.id ==> k == k'
  }

  /** A follower that applies the acks drops every message they name in that shard. */
  lemma {:induction false} AcksApplied(shardOf: Sharding, r: Replica, queue: string, ids: seq<Id>)
    ensures ApplyAll(shardOf, r, AckCommands(queue, ids)) == LeaderAcks(shardOf, r, queue, Elems(ids))
  {
    if ids == [] {
      assert AckedKeys(shardOf, queue, Elems(ids)) == {};
      assert r.live - {} == r.live;
    } else {
      var front, id := ids[..|ids| - 1], ids[|ids| - 1];
      AcksApplied(shardOf, r, queue, front);
      assert AckCommands(queue, ids)[..|ids| - 1] == AckCommands(queue, front);
      Unsnoc(ids);
      assert Elems(ids) == Elems(front) + {id};
      assert AckedKeys(shardOf, queue, Elems(ids))
          == AckedKeys(shardOf, queue, Elems(front)) + {Key(shardOf(queue), id)};
      assert r.live - AckedKeys(shardOf, queue, Elems(ids))
          == (r.live - AckedKeys(shardOf, queue, Elems(front))) - {Key(shardOf(queue), id)};
    }
  }

  lemma LiveAfterAcks(shardOf: Sharding, r: Replica, queue: string, acked: set<Id>, id: Id)
    requires OneShardEach(r)
    ensures id in LiveIds(LeaderAcks(shardOf, r, queue, acked))
            <==> id in LiveIds(r) && !(id in acked && Key(shardOf(queue), id) in r.live)
  {
    var r' := LeaderAcks(shardOf, r, queue, acked);
    if id in LiveIds(r) {
      var k :| k in r.live && k.id == id;
      assert k in AckedKeys(shardOf, queue, acked) <==> id in acked && k == Key(shardOf(queue), id);
      assert k in r'.live <==> k !in AckedKeys(shardOf, queue, acked);
    }
  }

  /** What a follower that gets it makes of a batch of acks: nothing when none was accepted. */
  ghost function FollowerAcks(shardOf: Sharding, r: Replica, queue: string, ids: seq<Id>, accepted: set<Id>): Replica {
    if AckedOf(ids, accepted) == {} then r else ApplyAll(shardOf, r, AckCommands(queue, ids))
  }

  /** A leader and a follower with the same live messages still have the same after a batch of acks if and
      only if no ack of it was accepted, or for every live message that it names the leader accepts the
      ack exactly when the follower holds the message in the shard of the queue. (The leader accepts acks
      only of messages it holds in that shard.) */
  lemma AckBatchAgreesIff(shardOf: Sharding, leader: Replica, follower: Replica, queue: string, ids: seq<Id>,
                          accepted: set<Id>)
    requires OneShardEach(leader) && OneShardEach(follower) && LiveIds(leader) == LiveIds(follower)
    requires forall id :: id in AckedOf(ids, accepted) ==> Key(shardOf(queue), id) in leader.live
    ensures LiveIds(LeaderAcks(shardOf, leader, queue, AckedOf(ids, accepted)))
            == LiveIds(FollowerAcks(shardOf, follower, queue, ids, accepted))
            <==> AckedOf(ids, accepted) == {} ||
                 forall id :: id in ids && id in LiveIds(leader) ==>
                   (id in accepted <==> Key(shardOf(queue), id) in follower.live)
  {
    hide LeaderAcks, ApplyAll, LiveIds, OneShardEach;
    var acked := AckedOf(ids, accepted);
    var l, f := LeaderAcks(shardOf, leader, queue, acked), FollowerAcks(shardOf, follower, queue, ids, accepted);
    AcksApplied(shardOf, follower, queue, ids);
    forall id
      ensures id in LiveIds(l) <==> id in LiveIds(leader) && id !in acked
      ensures acked != {} ==>
                (id in LiveIds(f)
                 <==> id in LiveIds(leader) && !(id in ids && Key(shardOf(queue), id) in follower.live))
    {
      LiveAfterAcks(shardOf, leader, queue, acked, id);
      LiveAfterAcks(shardOf, follower, queue, Elems(ids), id);
    }
    if acked == {} {
      assert LiveIds(l) == LiveIds(leader);
    } else if LiveIds(l) == LiveIds(f) {
      forall id | id in ids && id in LiveIds(leader)
        ensures id in accepted <==> Key(shardOf(queue), id) in follower.live
      {
        assert id in LiveIds(l) <==> id in LiveIds(f);
      }
    }
  }

  lemma LiveIn(r: Replica, k: Key)
    requires k in r.live
    ensures k.id in LiveIds(r)
  {
  }

  /** First way to disagree: an ack that the leader refuses goes along with one that it accepts, and the
      follower drops a message that the leader keeps. */
  lemma RefusedAckDiverges(shardOf: Sharding, queue: string, x: Id, y: Id, payload: Bytes)
    requires x != y
    ensures var r := ApplyAll(shardOf, EMPTY, [Command.Push(queue, x, payload), Command.Push(queue, y, payload)]);
            && y in LiveIds(LeaderAcks(shardOf, r, queue, AckedOf([x, y], {x})))
            && y !in LiveIds(FollowerAcks(shardOf, r, queue, [x, y], {x}))
  {
    hide LeaderAcks, ApplyAll;
    var a, b := Command.Push(queue, x, payload), Command.Push(queue, y, payload);
    var r := ApplyAll(shardOf, EMPTY, [a, b]);
    ApplyTwo(shardOf, EMPTY, a, b);
    var ky := Key(shardOf(queue), y);
    assert r.live.Keys == {Key(shardOf(queue), x), ky};
    assert x in AckedOf([x, y], {x}) && y !in AckedOf([x, y], {x});
    LiveIn(r, ky);
    AcksApplied(shardOf, r, queue, [x, y]);
    LiveAfterAcks(shardOf, r, queue, AckedOf([x, y], {x}), y);
    LiveAfterAcks(shardOf, r, queue, Elems([x, y]), y);
  }

  /** The leader's engine after it has dead-lettered a message, which is not replicated. */
  function DeadLettered(shardOf: Sharding, r: Replica, id: Id, from: string, to: string): Replica
    requires Key(shardOf(from), id) in r.live
  {
    var k, k' := Key(shardOf(from), id), Key(shardOf(to), id);
    Replica((r.live - {k})[k' := Body(to, r.live[k].payload)], r.seen + {k'})
  }

  /** Second way: the message was dead-lettered on the leader into another shard. The ack there leaves the
      copy of the follower live. */
  lemma DeadLetterAckDiverges(shardOf: Sharding, queue: string, dead: string, id: Id, payload: Bytes)
    requires shardOf(dead) != shardOf(queue)
    ensures var follower := ApplyAll(shardOf, EMPTY, [Command.Push(queue, id, payload)]);
            && Key(shardOf(queue), id) in follower.live
            && var leader := DeadLettered(shardOf, follower, id, queue, dead);
            && LiveIds(leader) == LiveIds(follower)
            && id !in LiveIds(LeaderAcks(shardOf, leader, dead, AckedOf([id], {id})))
            && id in LiveIds(FollowerAcks(shardOf, follower, dead, [id], {id}))
  {
    hide LeaderAcks;
    var c, k, k' := Command.Push(queue, id, payload), Key(shardOf(queue), id), Key(shardOf(dead), id);
    assert [c][..0] == [];
    assert ApplyAll(shardOf, EMPTY, [c]) == Apply(shardOf, EMPTY, c);
    var follower := ApplyAll(shardOf, EMPTY, [c]);
    assert follower.live == map[k := Body(queue, payload)];
    var leader := DeadLettered(shardOf, follower, id, queue, dead);
    assert leader.live.Keys == {k'} && follower.live.Keys == {k};
    assert LiveIds(leader) == {id} && LiveIds(follower) == {id};
    assert id in AckedOf([id], {id});
    LiveIn(follower, k);
    AcksApplied(shardOf, follower, dead, [id]);
    LiveAfterAcks(shardOf, leader, dead, AckedOf([id], {id}), id);
    LiveAfterAcks(shardOf, follower, dead, Elems([id]), id);
  }
}
