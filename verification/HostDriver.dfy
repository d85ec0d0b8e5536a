/**
 The host's cycle as it runs (internal/raft/host.go:149-176): save, then send, then apply, then
 advance. What reaches the outside is recorded in order, so the contract can say that nothing is
 sent before it is saved.
 */
module HostDriver {
  import opened Wrappers
  import opened WalFormat
  import opened RaftLog
  import opened RaftKeys
  import opened RaftPersister
  import E = Engine
  import N = RaftNode
  import R = RaftReplica
  import RecoveryRuns

  /** What the outside sees: a finished save, a message given to the transport, an entry given to the application. */
  datatype Effect =
    | SaveDone(hard: N.HardState, entries: seq<Entry>)
    | Sent(m: N.Message)
    | Applied(e: Entry)

  function Sends(ms: seq<N.Message>): (r: seq<Effect>)
    ensures |r| == |ms|
  {
    seq(|ms|, k requires 0 <= k < |ms| => Sent(ms[k]))
  }

  /** Config changes and a leader's own entry are not the application's. */
  predicate Internal(data: Data) {
    !data.Command?
  }

  /** The application meets its entries in order and stops at the first it refuses. */
  function Applies(es: seq<Entry>, accepts: Entry -> bool): (seq<Effect>, bool) {
    if es == [] then ([], true)
    else if Internal(es[0].data) then Applies(es[1..], accepts)
    else if !accepts(es[0]) then ([], false)
    else
      var (rest, ok) := Applies(es[1..], accepts);
      ([Applied(es[0])] + rest, ok)
  }

  class Host {
    const node: R.Node
    const persister: Persister
    var effects: seq<Effect>

    constructor (node: R.Node, persister: Persister)
      ensures this.node == node && this.persister == persister && effects == []
    {
      this.node, this.persister, effects := node, persister, [];
    }

    /** `driveLocked`. */
    method DriveLocked(accepts: Entry -> bool) returns (error: Option<string>)
      modifies this, node, node.log, persister.db`data, persister.db.wal, persister.db.wal.file
      ensures var s := old(node.State());
        var db, before := persister.db, old(persister.db.State());
        if RecoveryRuns.NothingToDo(s) then
          error == None && node.State() == s && db.State() == before && effects == old(effects)
        else if db.closed then
          error.Some? && node.State() == s && db.State() == before && effects == old(effects)
        else
          && db.State() == PersistImage(before, N.Hard(s), s.unstable, persister.c, db.wal.crc)
          && var (applied, ok) := Applies(N.CommittedEntries(s), accepts);
             && effects == old(effects) + [SaveDone(N.Hard(s), s.unstable)] + Sends(old(node.msgs)) + applied
             && (error == None <==> ok)
             && node.State() == if ok then N.Advance(s) else s
    {
      hide N.CommittedEntries, PersistImage, Applies;
      ghost var s := node.State();
      var hard, entries, committedEntries, messages := node.Ready();
      QueuedNone(messages);
      if entries == [] && messages == [] && committedEntries == [] && hard == node.lastHard {
        return None;
      }
      error := persister.Persist(hard, entries);
      if error.Some? {
        return;
      }
      effects := effects + [SaveDone(hard, entries)];
      SendAll(messages);
      error := ApplyAll(committedEntries, accepts);
      if error.Some? {
        return;
      }
      node.Advance();
    }

    /** A send that fails is ignored: the message counts as given to the transport. */
    method SendAll(messages: seq<N.Message>)
      modifies `effects
      ensures effects == old(effects) + Sends(messages)
    {
      var i := 0;
      while i < |messages|
        invariant 0 <= i <= |messages|
        invariant effects == old(effects) + Sends(messages[..i])
      {
        assert Sends(messages[..i + 1]) == Sends(messages[..i]) + [Sent(messages[i])];
        effects := effects + [Sent(messages[i])];
        i := i + 1;
      }
      assert messages[..i] == messages;
    }

    method ApplyAll(es: seq<Entry>, accepts: Entry -> bool) returns (error: Option<string>)
      modifies `effects
      ensures var (applied, ok) := Applies(es, accepts);
        effects == old(effects) + applied && (error == None <==> ok)
    {
      var i := 0;
      while i < |es|
        invariant 0 <= i <= |es|
        invariant effects + Applies(es[i..], accepts).0 == old(effects) + Applies(es, accepts).0
        invariant Applies(es[i..], accepts).1 == Applies(es, accepts).1
      {
        assert es[i..][0] == es[i] && es[i..][1..] == es[i + 1..];
        if !Internal(es[i].data) {
          if !accepts(es[i]) {
            return Some("apply failed");
          }
          effects := effects + [Applied(es[i])];
        }
        i := i + 1;
      }
      error := None;
    }
  }

  lemma QueuedNone(ms: seq<N.Message>)
    ensures R.Queued(ms) == {} <==> ms == []
  {
    if ms != [] {
      assert ms[0] in R.Queued(ms);
    }
  }

  /**
   One finished cycle moves the node and its disk exactly as RecoveryRuns says, so every result about
   those runs holds of the host.
   */
  lemma CycleIsDriven(m: RecoveryRuns.Machine, before: E.Image, c: Codec, crc: Checksum)
    requires !RecoveryRuns.NothingToDo(m.node) && !before.closed
    requires Holds(before.data, c, m.disk) && Invertible(c) && forall e | e in m.node.unstable :: Index64(e.index)
    ensures var after := RecoveryRuns.Driven(m);
      && after.node == N.Advance(m.node) && after.saved == m.node
      && var image := PersistImage(before, N.Hard(m.node), m.node.unstable, c, crc);
         && Holds(image.data, c, after.disk) && image.synced == |image.file| && !image.closed
  {
    hide Holds, PersistImage, Invertible, RecoveryRuns.NothingToDo, N.Hard;
    PersistIsDurable(before, N.Hard(m.node), m.node.unstable, c, crc, m.disk);
  }

  /** The application's entries: commands, and neither config changes nor a leader's own entry. */
  function Commands(es: seq<Entry>): seq<Entry> {
    if es == [] then [] else (if es[0].data.Command? then [es[0]] else []) + Commands(es[1..])
  }

  /** Only commands reach the application, in log order, and all of them up to the first it refuses. */
  lemma {:induction false} AppliedInOrder(es: seq<Entry>, accepts: Entry -> bool)
    ensures var (applied, ok) := Applies(es, accepts);
      var commands, n := Commands(es), |applied|;
      && n <= |commands|
      && (forall k | 0 <= k < n :: applied[k] == Applied(commands[k]) && accepts(commands[k]))
      && (n < |commands| ==> !accepts(commands[n]))
      && (ok <==> n == |commands|)
  {
    if es != [] {
      AppliedInOrder(es[1..], accepts);
    }
  }
}
